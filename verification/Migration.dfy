/**
 * `initialise` of the SQLite repository, run by any number of processes at once over one database file, with an error
 * or a crash possible at every statement.
 */
module Migration {
  import opened Common
  import opened Domain
  import opened ReceiptStore

  datatype LegacyRow = LegacyRow(
    familyId: string, listId: string, payloadHash: string, status: Status, upstreamId: Option<string>, expiresAt: string)

  /** The table `operation_receipts`; rows are keyed by (subject, operation_id). */
  datatype Table = Absent | OldTable(legacy: map<Key, LegacyRow>) | NewTable(rows: map<Key, Row>)

  /** The schema's part of the database; `spare` is a table `operation_receipts_new`. */
  datatype Schema = Schema(main: Table, spare: Option<map<Key, Row>>)

  /** `list_id` becomes `resource_id`, and the action is 'legacy'. */
  function ImageRow(r: LegacyRow): Row
  {
    Row(Content(r.familyId, r.listId, Legacy, r.payloadHash, r.status, r.upstreamId), r.expiresAt)
  }

  function Image(legacy: map<Key, LegacyRow>): map<Key, Row>
  {
    map k | k in legacy :: ImageRow(legacy[k])
  }

  /** The rows that a current table starts from, for each thing that may be found. */
  function StartRows(t: Table): map<Key, Row>
  {
    match t
    case Absent => map[]
    case OldTable(legacy) => Image(legacy)
    case NewTable(rows) => rows
  }

  /** The next statement of one process. */
  datatype Stage =
    | Inspecting | Creating | Beginning                                  // outside any transaction
    | Rechecking | MakingNew | Copying | Dropping | Renaming | Committing | Leaving  // under the write lock
    | Ready | Broken

  datatype Transaction = Transaction(owner: nat, work: Schema)

  datatype World = World(committed: Schema, open: Option<Transaction>, stages: map<nat, Stage>)

  datatype Step =
    | Begin(p: nat)                    // call `initialise`, for the first time or again
    | Go(p: nat)                       // the next statement runs
    | Break(p: nat)                    // the next statement raises, or the process dies
    | Put(p: nat, key: Key, row: Row)  // an initialised process stores a receipt

  predicate Holds(s: Stage)
  {
    s.Rechecking? || s.MakingNew? || s.Copying? || s.Dropping? || s.Renaming? || s.Committing? || s.Leaving?
  }

  predicate Enabled(w: World, step: Step)
  {
    match step
    case Begin(p) => p !in w.stages || w.stages[p].Ready? || w.stages[p].Broken?
    case Go(p) =>
      p in w.stages && !w.stages[p].Ready? && !w.stages[p].Broken?
      && ((w.stages[p].Creating? || w.stages[p].Beginning?) ==> w.open.None?)   // both need the write lock
      && (Holds(w.stages[p]) ==> w.open.Some? && w.open.value.owner == p)
    case Break(p) => p in w.stages
    case Put(p, _, _) => p in w.stages && w.stages[p].Ready? && w.open.None? && w.committed.main.NewTable?
  }

  /** The open transaction after one of its statements. */
  function Worked(w: World, p: nat, work: Schema, stage: Stage): World
  {
    w.(open := Some(Transaction(p, work)), stages := w.stages[p := stage])
  }

  function RolledBack(w: World, p: nat): World
  {
    w.(open := if w.open.Some? && w.open.value.owner == p then None else w.open, stages := w.stages[p := Broken])
  }

  function Statement(w: World, p: nat): World
    requires Enabled(w, Go(p))
  {
    match w.stages[p]
    case Inspecting =>
      w.(stages := w.stages[p := match w.committed.main case Absent => Creating case OldTable(_) => Beginning case NewTable(_) => Ready])
    case Creating =>
      w.(committed := if w.committed.main.Absent? then w.committed.(main := NewTable(map[])) else w.committed,
         stages := w.stages[p := Ready])
    case Beginning => Worked(w, p, w.committed, Rechecking)
    case Rechecking =>
      Worked(w, p, w.open.value.work, if w.open.value.work.main.OldTable? then MakingNew else Leaving)
    case MakingNew =>
      if w.open.value.work.spare.Some? then RolledBack(w, p)   // the table already exists
      else Worked(w, p, w.open.value.work.(spare := Some(map[])), Copying)
    case Copying =>
      var work := w.open.value.work;
      if work.main.OldTable? && work.spare.Some?
      then Worked(w, p, work.(spare := Some(work.spare.value + Image(work.main.legacy))), Dropping)
      else RolledBack(w, p)
    case Dropping => Worked(w, p, w.open.value.work.(main := Absent), Renaming)
    case Renaming =>
      var work := w.open.value.work;
      if work.main.Absent? && work.spare.Some? then Worked(w, p, Schema(NewTable(work.spare.value), None), Committing)
      else RolledBack(w, p)
    case Committing => w.(committed := w.open.value.work, open := None, stages := w.stages[p := Ready])
    case Leaving => w.(committed := w.open.value.work, open := None, stages := w.stages[p := Ready])
  }

  function Next(w: World, step: Step): World
    requires Enabled(w, step)
  {
    match step
    case Begin(p) => w.(stages := w.stages[p := Inspecting])
    case Go(p) => Statement(w, p)
    case Break(p) => RolledBack(w, p)
    case Put(_, k, row) => w.(committed := w.committed.(main := NewTable(w.committed.main.rows[k := row])))
  }

  function After(w: World, steps: seq<Step>): Option<World>
  {
    if steps == [] then Some(w)
    else
      match After(w, steps[..|steps| - 1])
      case Some(v) => if Enabled(v, steps[|steps| - 1]) then Some(Next(v, steps[|steps| - 1])) else None
      case None => None
  }

  /** The rows after the puts among `steps`, and nothing else. */
  function WithPuts(rows: map<Key, Row>, steps: seq<Step>): map<Key, Row>
  {
    if steps == [] then rows
    else
      var before, last := WithPuts(rows, steps[..|steps| - 1]), steps[|steps| - 1];
      if last.Put? then before[last.key := last.row] else before
  }

  /** What the open transaction has done, by the stage of its owner. */
  predicate WorkFits(w: World)
  {
    match w.open
    case None => forall p :: p in w.stages ==> !Holds(w.stages[p])
    case Some(Transaction(owner, work)) =>
      && owner in w.stages && Holds(w.stages[owner])
      && (forall p :: p in w.stages && Holds(w.stages[p]) ==> p == owner)
      && WorkOf(w.committed, w.stages[owner], work)
  }

  predicate WorkOf(c: Schema, stage: Stage, work: Schema)
  {
    match stage
    case Rechecking => work == c
    case MakingNew => work == c && c.main.OldTable?
    case Copying => c.main.OldTable? && c.spare.None? && work == c.(spare := Some(map[]))
    case Dropping => c.main.OldTable? && c.spare.None? && work == c.(spare := Some(Image(c.main.legacy)))
    case Renaming => c.main.OldTable? && c.spare.None? && work == Schema(Absent, Some(Image(c.main.legacy)))
    case Committing => c.main.OldTable? && c.spare.None? && work == Schema(NewTable(Image(c.main.legacy)), None)
    case Leaving => work == c && !c.main.OldTable?
    case _ => false
  }

  /** What is committed: the table as it was found, or its image with the puts since. */
  predicate Faithful(found: Schema, committed: Schema, steps: seq<Step>)
  {
    || (committed == found && !found.main.NewTable?)
    || (committed.main == NewTable(WithPuts(StartRows(found.main), steps))
        && committed.spare == if found.main.OldTable? then None else found.spare)
  }

  ghost predicate Inv(found: Schema, w: World, steps: seq<Step>)
  {
    && WorkFits(w)
    && Faithful(found, w.committed, steps)
    && (forall p :: p in w.stages && w.stages[p].Ready? ==> w.committed.main.NewTable?)
    && (forall p :: p in w.stages && w.stages[p].Creating? ==> !w.committed.main.OldTable?)
    && (forall p :: p in w.stages && (w.stages[p].Beginning? || Holds(w.stages[p])) ==> !w.committed.main.Absent?)
    && (forall s :: s in steps && s.Put? ==> w.committed.main.NewTable?)
  }

  lemma PutsSnoc(rows: map<Key, Row>, steps: seq<Step>, step: Step)
    ensures WithPuts(rows, steps + [step]) ==
            if step.Put? then WithPuts(rows, steps)[step.key := step.row] else WithPuts(rows, steps)
  {
    assert (steps + [step])[..|steps|] == steps;
  }

  lemma {:induction false} NoPuts(rows: map<Key, Row>, steps: seq<Step>)
    requires forall s :: s in steps ==> !s.Put?
    ensures WithPuts(rows, steps) == rows
  {
    if steps != [] {
      NoPuts(rows, steps[..|steps| - 1]);
    }
  }

  lemma WorkKept(w: World, step: Step)
    requires WorkFits(w) && Enabled(w, step)
    ensures WorkFits(Next(w, step))
  {
    assert forall rows: map<Key, Row> :: map[] + rows == rows;
  }

  lemma StepKeeps(found: Schema, w: World, steps: seq<Step>, step: Step)
    requires Inv(found, w, steps) && Enabled(w, step)
    ensures Inv(found, Next(w, step), steps + [step])
  {
    WorkKept(w, step);
    PutsSnoc(StartRows(found.main), steps, step);
    if w.committed.main.OldTable? || w.committed.main.Absent? {
      assert forall s :: s in steps ==> !s.Put?;
      NoPuts(StartRows(found.main), steps);
    }
  }

  lemma {:induction false} RunInv(found: Schema, steps: seq<Step>)
    requires After(World(found, None, map[]), steps).Some?
    ensures Inv(found, After(World(found, None, map[]), steps).value, steps)
  {
    if steps != [] {
      var before := steps[..|steps| - 1];
      RunInv(found, before);
      StepKeeps(found, After(World(found, None, map[]), before).value, before, steps[|steps| - 1]);
      assert before + [steps[|steps| - 1]] == steps;
    }
  }

  /**
   * Whatever the processes did and wherever they failed, the committed database is the one that was found, untouched,
   * or the row-for-row image of its table with the puts since, and no half-made table left by a migration; and an
   * initialised process sees the current schema.
   */
  lemma MigrationIsAllOrNothing(found: Schema, steps: seq<Step>)
    requires After(World(found, None, map[]), steps).Some?
    ensures var w := After(World(found, None, map[]), steps).value;
            && (!w.committed.main.NewTable? ==> w.committed == found && WithPuts(map[], steps) == map[])
            && (w.committed.main.NewTable? ==>
                  && w.committed.main.rows == WithPuts(StartRows(found.main), steps)
                  && w.committed.spare == if found.main.OldTable? then None else found.spare)
            && (forall p :: p in w.stages && w.stages[p].Ready? ==> w.committed.main.NewTable?)
  {
    RunInv(found, steps);
    var w := After(World(found, None, map[]), steps).value;
    if !w.committed.main.NewTable? {
      assert forall s :: s in steps ==> !s.Put?;
      NoPuts(map[], steps);
    }
  }

  predicate Stores(step: Step, k: Key)
  {
    step.Put? && step.key == k
  }

  /** Step `i` stores the last receipt under this key. */
  predicate LastToStore(steps: seq<Step>, k: Key, i: int)
  {
    0 <= i < |steps| && Stores(steps[i], k) && forall j :: i < j < |steps| ==> !Stores(steps[j], k)
  }

  lemma {:induction false} LastPutWins(rows: map<Key, Row>, steps: seq<Step>, k: Key, i: int)
    requires LastToStore(steps, k, i)
    ensures k in WithPuts(rows, steps) && WithPuts(rows, steps)[k] == steps[i].row
    decreases |steps|
  {
    if i < |steps| - 1 {
      assert !Stores(steps[|steps| - 1], k);
      LastPutWins(rows, steps[..|steps| - 1], k, i);
    }
  }

  lemma {:induction false} UnstoredStays(rows: map<Key, Row>, steps: seq<Step>, k: Key)
    requires forall j :: 0 <= j < |steps| ==> !Stores(steps[j], k)
    ensures k in WithPuts(rows, steps) <==> k in rows
    ensures k in rows ==> WithPuts(rows, steps)[k] == rows[k]
  {
    if steps != [] {
      assert !Stores(steps[|steps| - 1], k);
      UnstoredStays(rows, steps[..|steps| - 1], k);
    }
  }

  /**
   * Every row of the migrated database is accounted for: it is the receipt stored last under its key, or, when none was
   * stored since, the row that was found, with the list as its resource and the action "legacy" if the table was the old one.
   */
  lemma EveryRowIsAccountedFor(found: Schema, steps: seq<Step>, k: Key)
    requires After(World(found, None, map[]), steps).Some? && After(World(found, None, map[]), steps).value.committed.main.NewTable?
    ensures var rows := After(World(found, None, map[]), steps).value.committed.main.rows;
            && (forall i :: LastToStore(steps, k, i) ==> k in rows && rows[k] == steps[i].row)
            && ((forall j :: 0 <= j < |steps| ==> !Stores(steps[j], k)) ==>
                  match found.main
                  case Absent => k !in rows
                  case NewTable(were) => (k in rows <==> k in were) && (k in were ==> rows[k] == were[k])
                  case OldTable(were) =>
                    && (k in rows <==> k in were)
                    && (k in were ==>
                          var was := were[k];
                          rows[k] == Row(Content(was.familyId, was.listId, Legacy, was.payloadHash, was.status, was.upstreamId), was.expiresAt)))
  {
    MigrationIsAllOrNothing(found, steps);
    hide After, WithPuts, LastToStore, Stores;
    forall i | LastToStore(steps, k, i)
      ensures k in WithPuts(StartRows(found.main), steps) && WithPuts(StartRows(found.main), steps)[k] == steps[i].row
    {
      LastPutWins(StartRows(found.main), steps, k, i);
    }
    if forall j :: 0 <= j < |steps| ==> !Stores(steps[j], k) {
      UnstoredStays(StartRows(found.main), steps, k);
    }
  }

  /** Migrating keeps every key and every field; only the name of the list column and the action are new. */
  lemma ImageKeepsRows(legacy: map<Key, LegacyRow>)
    ensures Image(legacy).Keys == legacy.Keys && |Image(legacy)| == |legacy|
    ensures forall k :: k in legacy ==>
              var row, was := Image(legacy)[k], legacy[k];
              && row.content.resourceId == was.listId && row.content.action == Legacy && row.content.familyId == was.familyId
              && row.content.payloadHash == was.payloadHash && row.content.status == was.status
              && row.content.upstreamId == was.upstreamId && row.expiresAt == was.expiresAt
  {
    assert Image(legacy).Keys == legacy.Keys;
    assert |Image(legacy).Keys| == |Image(legacy)| && |legacy.Keys| == |legacy|;
  }

  /** Nothing is lost: only one table has a given image. */
  lemma ImageLosesNothing(a: map<Key, LegacyRow>, b: map<Key, LegacyRow>)
    requires Image(a) == Image(b)
    ensures a == b
  {
    assert a.Keys == Image(a).Keys == Image(b).Keys == b.Keys;
    forall k | k in a
      ensures a[k] == b[k]
    {
      assert Image(a)[k] == Image(b)[k];
    }
  }

  function Repeat(p: nat, n: nat): seq<Step>
  {
    if n == 0 then [Begin(p)] else Repeat(p, n - 1) + [Go(p)]
  }

  /** Process `p` is alone, at `stage`, after `n` statements. */
  predicate Alone(w: World, p: nat, n: nat, committed: Schema, open: Option<Schema>, stage: Stage)
  {
    After(w, Repeat(p, n)) ==
    Some(World(committed, match open case Some(work) => Some(Transaction(p, work)) case None => None, map[p := stage]))
  }

  lemma AloneGoes(w: World, p: nat, n: nat, committed: Schema, open: Option<Schema>, stage: Stage)
    requires Alone(w, p, n, committed, open, stage)
    requires !stage.Ready? && !stage.Broken? && (Holds(stage) <==> open.Some?)
    ensures var v := World(committed, match open case Some(work) => Some(Transaction(p, work)) case None => None, map[p := stage]);
            After(w, Repeat(p, n + 1)) == Some(Statement(v, p))
    ensures forall s: Stage :: map[p := stage][p := s] == map[p := s]
  {
    var steps := Repeat(p, n + 1);
    assert steps[..|steps| - 1] == Repeat(p, n);
  }

  lemma LoneBegins(legacy: map<Key, LegacyRow>, spare: Option<map<Key, Row>>, p: nat)
    ensures var found := Schema(OldTable(legacy), spare);
            Alone(World(found, None, map[]), p, 3, found, Some(found), MakingNew)
  {
    var found := Schema(OldTable(legacy), spare);
    var w := World(found, None, map[]);
    assert Repeat(p, 0)[..0] == [];
    assert After(w, []) == Some(w);
    assert Alone(w, p, 0, found, None, Inspecting);
    AloneGoes(w, p, 0, found, None, Inspecting);
    AloneGoes(w, p, 1, found, None, Beginning);
    AloneGoes(w, p, 2, found, Some(found), Rechecking);
  }

  lemma LoneCopies(legacy: map<Key, LegacyRow>, p: nat, w: World)
    requires var found := Schema(OldTable(legacy), None); Alone(w, p, 3, found, Some(found), MakingNew)
    ensures var found := Schema(OldTable(legacy), None);
            Alone(w, p, 5, found, Some(found.(spare := Some(Image(legacy)))), Dropping)
  {
    var found := Schema(OldTable(legacy), None);
    AloneGoes(w, p, 3, found, Some(found), MakingNew);
    AloneGoes(w, p, 4, found, Some(found.(spare := Some(map[]))), Copying);
    assert map[] + Image(legacy) == Image(legacy);
  }

  lemma LoneCommits(legacy: map<Key, LegacyRow>, p: nat, w: World)
    requires var found := Schema(OldTable(legacy), None);
             Alone(w, p, 5, found, Some(found.(spare := Some(Image(legacy)))), Dropping)
    ensures Alone(w, p, 8, Schema(NewTable(Image(legacy)), None), None, Ready)
  {
    var found := Schema(OldTable(legacy), None);
    AloneGoes(w, p, 5, found, Some(found.(spare := Some(Image(legacy)))), Dropping);
    AloneGoes(w, p, 6, found, Some(Schema(Absent, Some(Image(legacy)))), Renaming);
    AloneGoes(w, p, 7, found, Some(Schema(NewTable(Image(legacy)), None)), Committing);
  }

  /** A lone migrator that no statement fails: it succeeds exactly when no half-made table is in the way. */
  lemma LoneMigration(legacy: map<Key, LegacyRow>, spare: Option<map<Key, Row>>, p: nat)
    ensures var found := Schema(OldTable(legacy), spare);
            var w := World(found, None, map[]);
            && (spare.None? ==> Alone(w, p, 8, Schema(NewTable(Image(legacy)), None), None, Ready))
            && (spare.Some? ==> Alone(w, p, 4, found, None, Broken))
  {
    var found := Schema(OldTable(legacy), spare);
    var w := World(found, None, map[]);
    LoneBegins(legacy, spare, p);
    if spare.None? {
      LoneCopies(legacy, p, w);
      LoneCommits(legacy, p, w);
    } else {
      AloneGoes(w, p, 3, found, Some(found), MakingNew);
    }
  }

  // ----- one process, as it runs -----

  /** Statements are numbered as they run; the one that `failsAt` names raises. */
  class Database {
    var committed: Schema

    constructor (found: Schema)
      ensures committed == found
    {
      committed := found;
    }

    /**
     * `initialise`, undisturbed: it succeeds exactly when none of its statements raises and no half-made table is in
     * the way of a migration; then the table is the current one, with every row it had.  Otherwise nothing changes.
     */
    method Initialise(failsAt: Option<nat>) returns (ok: bool)
      modifies this
      ensures ok <==>
                && (failsAt.None? || failsAt.value >= match old(committed).main case NewTable(_) => 1 case Absent => 2 case OldTable(_) => 8)
                && !(old(committed).main.OldTable? && old(committed).spare.Some?)
      ensures committed.main == if ok then NewTable(StartRows(old(committed).main)) else old(committed).main
      ensures committed.spare == old(committed).spare
    {
      if failsAt == Some(0) {
        return false;
      }
      match committed.main
      case NewTable(_) =>
        return true;
      case Absent =>
        if failsAt == Some(1) {
          return false;
        }
        committed := committed.(main := NewTable(map[]));
        return true;
      case OldTable(_) =>
        ok := MigrateLegacyTable(failsAt);
    }

    /** `_migrate_legacy_table`: all statements work on the transaction's own copy until the commit. */
    method MigrateLegacyTable(failsAt: Option<nat>) returns (ok: bool)
      requires committed.main.OldTable?
      modifies this
      ensures ok <==> !(failsAt.Some? && 1 <= failsAt.value <= 7) && committed.spare == old(committed).spare && old(committed).spare.None?
      ensures committed == if ok then Schema(NewTable(Image(old(committed).main.legacy)), None) else old(committed)
    {
      var work := committed;                                    // BEGIN IMMEDIATE
      if failsAt == Some(1) || failsAt == Some(2) {
        return false;
      }
      if failsAt == Some(3) || work.spare.Some? {               // CREATE TABLE, without IF NOT EXISTS
        return false;
      }
      work := work.(spare := Some(map[]));
      if failsAt == Some(4) {
        return false;
      }
      work := work.(spare := Some(Image(work.main.legacy)));    // INSERT ... SELECT
      if failsAt == Some(5) {
        return false;
      }
      var copied := work.spare.value;
      work := work.(main := Absent);                            // DROP TABLE
      if failsAt == Some(6) {
        return false;
      }
      work := Schema(NewTable(copied), None);                   // ALTER TABLE ... RENAME
      if failsAt == Some(7) {
        return false;
      }
      committed := work;
      return true;
    }
  }
}
