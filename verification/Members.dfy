/** Names to account IDs and back: matching, first error, first-mention order, and the round trip. */
module Members {
  import opened Common

  datatype Member = Member(accountId: string, displayName: string, firstName: Option<string>)

  type Family = seq<Member>

  datatype SelectionError = InvalidName | UnknownMember | AmbiguousMember

  /** `_normalise`, and the first token of a display name (empty when there is none): any functions will do. */
  datatype Naming = Naming(normalise: string -> string, firstToken: string -> string)

  function FirstName(m: Member, rules: Naming): string
  {
    if m.firstName.Some? && m.firstName.value != "" then m.firstName.value else rules.firstToken(m.displayName)
  }

  function FullKey(m: Member, rules: Naming): string
  {
    rules.normalise(m.displayName)
  }

  function FirstKey(m: Member, rules: Naming): string
  {
    rules.normalise(FirstName(m, rules))
  }

  /** The list comprehension over the members whose full (or first) name is the wanted one. */
  function Matching(family: Family, wanted: string, full: bool, rules: Naming): seq<Member>
  {
    if family == [] then []
    else
      (if (if full then FullKey(family[0], rules) else FirstKey(family[0], rules)) == wanted then [family[0]] else [])
      + Matching(family[1..], wanted, full, rules)
  }

  function MatchMember(wanted: string, family: Family, rules: Naming): Result<Member, SelectionError>
  {
    var fullMatches := Matching(family, wanted, true, rules);
    if |fullMatches| == 1 then Ok(fullMatches[0])
    else if |fullMatches| > 1 then Err(AmbiguousMember)
    else
      var firstMatches := Matching(family, wanted, false, rules);
      if |firstMatches| == 1 then Ok(firstMatches[0])
      else if |firstMatches| > 1 then Err(AmbiguousMember)
      else Err(UnknownMember)
  }

  function ResolveOne(name: string, family: Family, rules: Naming): Result<Member, SelectionError>
  {
    if rules.normalise(name) == "" then Err(InvalidName) else MatchMember(rules.normalise(name), family, rules)
  }

  // ----- what a match is -----

  predicate HasName(m: Member, wanted: string, full: bool, rules: Naming)
  {
    (if full then FullKey(m, rules) else FirstKey(m, rules)) == wanted
  }

  /** Position `i` is the only one with the name. */
  predicate OnlyAt(family: Family, i: nat, wanted: string, full: bool, rules: Naming)
  {
    i < |family| && HasName(family[i], wanted, full, rules)
    && forall j :: 0 <= j < |family| && HasName(family[j], wanted, full, rules) ==> j == i
  }

  lemma {:induction false} MatchingIsEmpty(family: Family, wanted: string, full: bool, rules: Naming)
    ensures Matching(family, wanted, full, rules) == [] <==>
            forall j :: 0 <= j < |family| ==> !HasName(family[j], wanted, full, rules)
  {
    if family != [] {
      MatchingIsEmpty(family[1..], wanted, full, rules);
      assert forall j :: 0 <= j < |family[1..]| ==> family[1..][j] == family[j + 1];
      assert forall j :: 0 < j < |family| ==> family[j] == family[1..][j - 1];
    }
  }

  lemma {:induction false} MatchingIsSingle(family: Family, i: nat, wanted: string, full: bool, rules: Naming)
    requires i < |family|
    ensures OnlyAt(family, i, wanted, full, rules) ==> Matching(family, wanted, full, rules) == [family[i]]
  {
    if OnlyAt(family, i, wanted, full, rules) {
      var rest := family[1..];
      assert forall j :: 0 <= j < |rest| ==> rest[j] == family[j + 1];
      if i == 0 {
        MatchingIsEmpty(rest, wanted, full, rules);
      } else {
        assert OnlyAt(rest, i - 1, wanted, full, rules);
        MatchingIsSingle(rest, i - 1, wanted, full, rules);
      }
    }
  }

  lemma {:induction false} SingleIsOnly(family: Family, wanted: string, full: bool, rules: Naming) returns (i: nat)
    requires |Matching(family, wanted, full, rules)| == 1
    ensures OnlyAt(family, i, wanted, full, rules) && Matching(family, wanted, full, rules)[0] == family[i]
  {
    var rest := family[1..];
    assert forall j :: 0 < j < |family| ==> family[j] == rest[j - 1];
    if HasName(family[0], wanted, full, rules) {
      MatchingIsEmpty(rest, wanted, full, rules);
      i := 0;
    } else {
      var k := SingleIsOnly(rest, wanted, full, rules);
      i := k + 1;
    }
  }

  /** A name picks the one member with that full name, or, when nobody has it, the one with that first name. */
  ghost predicate Picks(wanted: string, family: Family, rules: Naming, i: nat)
  {
    || OnlyAt(family, i, wanted, true, rules)
    || ((forall j :: 0 <= j < |family| ==> !HasName(family[j], wanted, true, rules)) && OnlyAt(family, i, wanted, false, rules))
  }

  lemma MatchIffPicked(wanted: string, family: Family, rules: Naming)
    ensures MatchMember(wanted, family, rules).Ok? <==> exists i: nat :: Picks(wanted, family, rules, i)
    ensures forall i: nat :: Picks(wanted, family, rules, i) ==> i < |family| && MatchMember(wanted, family, rules) == Ok(family[i])
  {
    MatchingIsEmpty(family, wanted, true, rules);
    MatchingIsEmpty(family, wanted, false, rules);
    if |Matching(family, wanted, true, rules)| == 1 {
      var i := SingleIsOnly(family, wanted, true, rules);
      assert Picks(wanted, family, rules, i);
    } else if Matching(family, wanted, true, rules) == [] && |Matching(family, wanted, false, rules)| == 1 {
      var i := SingleIsOnly(family, wanted, false, rules);
      assert Picks(wanted, family, rules, i);
    }
    forall i: nat | Picks(wanted, family, rules, i)
      ensures i < |family| && MatchMember(wanted, family, rules) == Ok(family[i])
    {
      MatchingIsSingle(family, i, wanted, true, rules);
      MatchingIsSingle(family, i, wanted, false, rules);
    }
  }

  lemma {:induction false} SeveralMatch(family: Family, wanted: string, full: bool, rules: Naming) returns (i: nat, j: nat)
    requires |Matching(family, wanted, full, rules)| > 1
    ensures i < j < |family| && HasName(family[i], wanted, full, rules) && HasName(family[j], wanted, full, rules)
  {
    var rest := Matching(family[1..], wanted, full, rules);
    if |rest| > 1 {
      i, j := SeveralMatch(family[1..], wanted, full, rules);
      i, j := i + 1, j + 1;
    } else {
      j := SingleIsOnly(family[1..], wanted, full, rules);
      i, j := 0, j + 1;
    }
  }

  predicate FullNameIs(m: Member, wanted: string, rules: Naming)
  {
    rules.normalise(m.displayName) == wanted
  }

  /** The first name that is given, unless it is empty, or else the first token of the full name. */
  predicate FirstNameIs(m: Member, wanted: string, rules: Naming)
  {
    wanted == rules.normalise(if m.firstName.Some? && m.firstName.value != "" then m.firstName.value else rules.firstToken(m.displayName))
  }

  /** Two different members have the name. */
  predicate Shared(family: Family, wanted: string, full: bool, rules: Naming)
  {
    exists i, j :: 0 <= i < j < |family| && HasName(family[i], wanted, full, rules) && HasName(family[j], wanted, full, rules)
  }

  lemma MatchingDecides(family: Family, wanted: string, full: bool, rules: Naming)
    ensures var matches := Matching(family, wanted, full, rules);
            && (|matches| == 0 <==> forall i :: 0 <= i < |family| ==> !HasName(family[i], wanted, full, rules))
            && (|matches| > 1 <==> Shared(family, wanted, full, rules))
            && (|matches| == 1 ==> forall i :: 0 <= i < |family| && HasName(family[i], wanted, full, rules) ==> matches[0] == family[i])
  {
    MatchingIsEmpty(family, wanted, full, rules);
    if |Matching(family, wanted, full, rules)| == 1 {
      var i := SingleIsOnly(family, wanted, full, rules);
    } else if |Matching(family, wanted, full, rules)| > 1 {
      var i, j := SeveralMatch(family, wanted, full, rules);
    }
  }

  /**
   * What a name decides: a blank one is invalid; a full name that one member has is that member, and one that several have is
   * ambiguous; when nobody has it as a full name, the same goes for the first names; and otherwise it is unknown.
   */
  lemma NameDecides(name: string, family: Family, rules: Naming)
    ensures var wanted, r := rules.normalise(name), ResolveOne(name, family, rules);
            var someFull := exists i :: 0 <= i < |family| && FullNameIs(family[i], wanted, rules);
            var sharedFull := exists i, j :: 0 <= i < j < |family|
                                && FullNameIs(family[i], wanted, rules) && FullNameIs(family[j], wanted, rules);
            var someFirst := exists i :: 0 <= i < |family| && FirstNameIs(family[i], wanted, rules);
            var sharedFirst := exists i, j :: 0 <= i < j < |family|
                                && FirstNameIs(family[i], wanted, rules) && FirstNameIs(family[j], wanted, rules);
            if wanted == "" then r == Err(InvalidName)
            else if someFull then
              if sharedFull then r == Err(AmbiguousMember)
              else forall i :: 0 <= i < |family| && FullNameIs(family[i], wanted, rules) ==> r == Ok(family[i])
            else if someFirst then
              if sharedFirst then r == Err(AmbiguousMember)
              else forall i :: 0 <= i < |family| && FirstNameIs(family[i], wanted, rules) ==> r == Ok(family[i])
            else r == Err(UnknownMember)
  {
    var wanted := rules.normalise(name);
    assert forall m :: HasName(m, wanted, true, rules) <==> FullNameIs(m, wanted, rules);
    assert forall m :: HasName(m, wanted, false, rules) <==> FirstNameIs(m, wanted, rules);
    MatchingDecides(family, wanted, true, rules);
    MatchingDecides(family, wanted, false, rules);
    hide HasName, FullNameIs, FirstNameIs, Matching;
  }

  // ----- resolving several names -----

  predicate Listed(id: string, members: seq<Member>)
  {
    exists i :: 0 <= i < |members| && members[i].accountId == id
  }

  /** The members named, each once, in the order of their first mention; or the first name's error. */
  function ResolveAll(names: seq<string>, family: Family, rules: Naming): Result<seq<Member>, SelectionError>
  {
    if names == [] then Ok([])
    else
      match ResolveAll(names[..|names| - 1], family, rules)
      case Err(e) => Err(e)
      case Ok(done) =>
        match ResolveOne(names[|names| - 1], family, rules)
        case Err(e) => Err(e)
        case Ok(m) => Ok(if Listed(m.accountId, done) then done else done + [m])
  }

  datatype Resolved = Resolved(toAll: bool, accountIds: seq<string>, displayNames: seq<string>)

  datatype Failure = Selection(error: SelectionError) | EmptyFamily

  function IdsOf(members: seq<Member>): seq<string>
  {
    seq(|members|, i requires 0 <= i < |members| => members[i].accountId)
  }

  function NamesOf(members: seq<Member>): seq<string>
  {
    seq(|members|, i requires 0 <= i < |members| => members[i].displayName)
  }

  /** `resolve_members`: no names means everyone; a resolved assignment is never empty. */
  function Resolve(names: seq<string>, family: Family, rules: Naming): Result<Resolved, Failure>
  {
    if names == [] then
      if family == [] then Err(EmptyFamily) else Ok(Resolved(true, IdsOf(family), NamesOf(family)))
    else
      match ResolveAll(names, family, rules)
      case Err(e) => Err(Selection(e))
      case Ok(members) => Ok(Resolved(false, IdsOf(members), NamesOf(members)))
  }

  /** The loop, with its three growing collections. */
  method ResolveMembers(names: seq<string>, family: Family, rules: Naming) returns (r: Result<Resolved, Failure>)
    ensures r == Resolve(names, family, rules)
    ensures r.Ok? ==> (r.value.toAll <==> names == []) && |r.value.accountIds| == |r.value.displayNames|
    ensures names == [] ==>
              if family == [] then r == Err(EmptyFamily)
              else r.Ok? && |r.value.accountIds| == |family| && forall i :: 0 <= i < |family| ==>
                     r.value.accountIds[i] == family[i].accountId && r.value.displayNames[i] == family[i].displayName
    ensures names != [] && r.Err? ==> r.error.Selection?
  {
    if names == [] {
      if family == [] {
        return Err(EmptyFamily);
      }
      return Ok(Resolved(true, IdsOf(family), NamesOf(family)));
    }
    var accountIds: seq<string>, displayNames: seq<string>, seen: set<string> := [], [], {};
    for i := 0 to |names|
      invariant ResolveAll(names[..i], family, rules).Ok?
      invariant var done := ResolveAll(names[..i], family, rules).value;
                && accountIds == IdsOf(done) && displayNames == NamesOf(done)
                && forall id :: id in seen <==> Listed(id, done)
    {
      var one := ResolveOne(names[i], family, rules);
      assert names[..i + 1][..i] == names[..i];
      if one.Err? {
        ErrorSticks(names, i + 1, family, rules);
        return Err(Selection(one.error));
      }
      if one.value.accountId !in seen {
        AppendListed(ResolveAll(names[..i], family, rules).value, one.value);
        seen := seen + {one.value.accountId};
        accountIds := accountIds + [one.value.accountId];
        displayNames := displayNames + [one.value.displayName];
      }
    }
    assert names[..|names|] == names;
    return Ok(Resolved(false, accountIds, displayNames));
  }

  lemma AppendListed(done: seq<Member>, m: Member)
    ensures forall id :: Listed(id, done + [m]) <==> Listed(id, done) || id == m.accountId
  {
    forall id
      ensures Listed(id, done + [m]) <==> Listed(id, done) || id == m.accountId
    {
      if Listed(id, done) {
        var i :| 0 <= i < |done| && done[i].accountId == id;
        assert (done + [m])[i].accountId == id;
      }
      assert (done + [m])[|done|] == m;
      if Listed(id, done + [m]) && id != m.accountId {
        var i :| 0 <= i < |done + [m]| && (done + [m])[i].accountId == id;
        assert done[i].accountId == id;
      }
    }
  }

  /** Once a name fails, later names cannot change the error. */
  lemma {:induction false} ErrorSticks(names: seq<string>, n: nat, family: Family, rules: Naming)
    requires n <= |names| && ResolveAll(names[..n], family, rules).Err?
    ensures ResolveAll(names, family, rules) == ResolveAll(names[..n], family, rules)
  {
    if n == |names| {
      assert names[..n] == names;
    } else {
      var before := names[..|names| - 1];
      assert before[..n] == names[..n];
      ErrorSticks(before, n, family, rules);
    }
  }

  /** Resolution fails exactly with the error of the first name that has one. */
  lemma {:induction false} FirstErrorWins(names: seq<string>, family: Family, rules: Naming, e: SelectionError)
    ensures ResolveAll(names, family, rules) == Err(e) <==>
            exists i :: 0 <= i < |names| && ResolveOne(names[i], family, rules) == Err(e) && FineBefore(names, i, family, rules)
    ensures ResolveAll(names, family, rules).Ok? <==> FineBefore(names, |names|, family, rules)
  {
    if names != [] {
      var n := |names| - 1;
      var before := names[..n];
      FirstErrorWins(before, family, rules, e);
      assert forall i :: 0 <= i < n ==> before[i] == names[i];
      assert forall i :: 0 <= i <= n ==> (FineBefore(before, i, family, rules) <==> FineBefore(names, i, family, rules));
      assert FineBefore(names, n + 1, family, rules) <==> FineBefore(names, n, family, rules) && ResolveOne(names[n], family, rules).Ok?;
      hide FineBefore, ResolveOne;
      if ResolveAll(before, family, rules) == Err(e) {
        var i :| 0 <= i < |before| && ResolveOne(before[i], family, rules) == Err(e) && FineBefore(before, i, family, rules);
        assert ResolveOne(names[i], family, rules) == Err(e);
      }
    }
  }

  predicate FineBefore(names: seq<string>, n: nat, family: Family, rules: Naming)
    requires n <= |names|
  {
    forall i :: 0 <= i < n ==> ResolveOne(names[i], family, rules).Ok?
  }

  predicate Mentions(names: seq<string>, i: nat, id: string, family: Family, rules: Naming)
    requires i < |names|
  {
    ResolveOne(names[i], family, rules).Ok? && ResolveOne(names[i], family, rules).value.accountId == id
  }

  predicate Mentioned(names: seq<string>, id: string, family: Family, rules: Naming)
  {
    exists i :: 0 <= i < |names| && Mentions(names, i, id, family, rules)
  }

  /** Some name means this account, and every name up to it means another one than `later`. */
  ghost predicate MentionedFirst(names: seq<string>, id: string, later: string, family: Family, rules: Naming)
  {
    exists i :: 0 <= i < |names| && Mentions(names, i, id, family, rules)
                && forall j :: 0 <= j <= i ==> !Mentions(names, j, later, family, rules)
  }

  predicate DistinctIds(members: seq<Member>)
  {
    forall i, j :: 0 <= i < j < |members| ==> members[i].accountId != members[j].accountId
  }

  /** The resolved accounts are exactly those mentioned, each once, ordered by first mention. */
  lemma {:induction false} ResolvedInFirstMentionOrder(names: seq<string>, family: Family, rules: Naming)
    requires ResolveAll(names, family, rules).Ok?
    ensures var members := ResolveAll(names, family, rules).value;
            && DistinctIds(members)
            && (forall id :: Listed(id, members) <==> Mentioned(names, id, family, rules))
            && (forall p, q :: 0 <= p < q < |members| ==>
                  MentionedFirst(names, members[p].accountId, members[q].accountId, family, rules))
    ensures names != [] ==>
              var members, r := ResolveAll(names, family, rules).value, Resolve(names, family, rules);
              && r.Ok? && |r.value.accountIds| == |r.value.displayNames| == |members|
              && forall p :: 0 <= p < |members| ==>
                   r.value.accountIds[p] == members[p].accountId && r.value.displayNames[p] == members[p].displayName
  {
    if names != [] {
      var n := |names| - 1;
      var before := names[..n];
      var done, m := ResolveAll(before, family, rules).value, ResolveOne(names[n], family, rules).value;
      var members := ResolveAll(names, family, rules).value;
      ResolvedInFirstMentionOrder(before, family, rules);
      assert before + [names[n]] == names;
      AppendListed(done, m);
      forall id
        ensures Mentioned(names, id, family, rules) <==> Mentioned(before, id, family, rules) || id == m.accountId
      {
        NewMention(names, id, family, rules);
      }
      forall p, q | 0 <= p < q < |members|
        ensures MentionedFirst(names, members[p].accountId, members[q].accountId, family, rules)
      {
        if q < |done| {
          MentionGrows(before, names[n], done[p].accountId, done[q].accountId, family, rules);
        } else {
          assert Listed(done[p].accountId, done);
          assert !Listed(m.accountId, done);
          MentionOfNewcomer(before, names[n], done[p].accountId, m.accountId, family, rules);
        }
      }
    }
  }

  lemma MentionOfNewcomer(names: seq<string>, name: string, id: string, later: string, family: Family, rules: Naming)
    requires Mentioned(names, id, family, rules) && !Mentioned(names, later, family, rules)
    ensures MentionedFirst(names + [name], id, later, family, rules)
  {
    var i :| 0 <= i < |names| && Mentions(names, i, id, family, rules);
    assert forall j :: 0 <= j <= i ==> !Mentions(names, j, later, family, rules);
    assert MentionedFirst(names, id, later, family, rules);
    MentionGrows(names, name, id, later, family, rules);
  }

  lemma NewMention(names: seq<string>, id: string, family: Family, rules: Naming)
    requires names != [] && ResolveOne(names[|names| - 1], family, rules).Ok?
    ensures Mentioned(names, id, family, rules) <==>
            Mentioned(names[..|names| - 1], id, family, rules) || id == ResolveOne(names[|names| - 1], family, rules).value.accountId
  {
    var before := names[..|names| - 1];
    assert forall i :: 0 <= i < |before| ==> (Mentions(before, i, id, family, rules) <==> Mentions(names, i, id, family, rules));
    assert Mentions(names, |names| - 1, id, family, rules) <==> id == ResolveOne(names[|names| - 1], family, rules).value.accountId;
  }

  lemma MentionGrows(names: seq<string>, name: string, id: string, later: string, family: Family, rules: Naming)
    requires MentionedFirst(names, id, later, family, rules)
    ensures MentionedFirst(names + [name], id, later, family, rules)
  {
    var i :| 0 <= i < |names| && Mentions(names, i, id, family, rules)
             && forall j :: 0 <= j <= i ==> !Mentions(names, j, later, family, rules);
    assert forall j, x :: 0 <= j <= i ==> (Mentions(names + [name], j, x, family, rules) <==> Mentions(names, j, x, family, rules));
    assert Mentions(names + [name], i, id, family, rules);
  }

  // ----- and back to names -----

  /** The dict comprehension: a repeated account ID keeps the last name. */
  function NameById(family: Family): map<string, string>
  {
    if family == [] then map[]
    else NameById(family[..|family| - 1])[family[|family| - 1].accountId := family[|family| - 1].displayName]
  }

  function Known(ids: seq<string>, names: map<string, string>): seq<string>
  {
    if ids == [] then []
    else Known(ids[..|ids| - 1], names) + if ids[|ids| - 1] in names then [ids[|ids| - 1]] else []
  }

  datatype View = View(names: seq<string>, everyone: Option<bool>, unresolved: int)

  lemma {:induction false} KnownAreIn(ids: seq<string>, names: map<string, string>)
    ensures forall id :: id in Known(ids, names) ==> id in names
    ensures |Known(ids, names)| <= |ids| && (|Known(ids, names)| == |ids| <==> forall id :: id in ids ==> id in names)
    ensures |Known(ids, names)| == |ids| ==> Known(ids, names) == ids
  {
    if ids != [] {
      var before := ids[..|ids| - 1];
      KnownAreIn(before, names);
      assert ids == before + [ids[|ids| - 1]];
    }
  }

  function DescribeAssignment(ids: seq<string>, toAll: Option<bool>, family: Family): View
  {
    var names := NameById(family);
    var known := Known(ids, names);
    KnownAreIn(ids, names);
    View(seq(|known|, i requires 0 <= i < |known| => names[known[i]]), toAll, |ids| - |known|)
  }

  /** The last member with this account ID, whose name it goes by. */
  predicate LastWithId(family: Family, id: string, m: int)
  {
    0 <= m < |family| && family[m].accountId == id && forall n :: m < n < |family| ==> family[n].accountId != id
  }

  lemma {:induction false} NameByLast(family: Family, id: string)
    ensures id in NameById(family) <==> exists m :: LastWithId(family, id, m)
    ensures forall m :: LastWithId(family, id, m) ==> NameById(family)[id] == family[m].displayName
  {
    if family != [] {
      var before, last := family[..|family| - 1], |family| - 1;
      NameByLast(before, id);
      if family[last].accountId == id {
        assert LastWithId(family, id, last);
      } else {
        forall m
          ensures LastWithId(family, id, m) <==> LastWithId(before, id, m)
        {
        }
      }
    }
  }

  /** One more ID adds the name of its last member, or, when nobody in the family has it, counts as unresolved. */
  lemma DescribesOneMore(ids: seq<string>, id: string, toAll: Option<bool>, family: Family)
    ensures DescribeAssignment([], toAll, family) == View([], toAll, 0)
    ensures var view, more := DescribeAssignment(ids, toAll, family), DescribeAssignment(ids + [id], toAll, family);
            && more.everyone == toAll
            && (forall m :: LastWithId(family, id, m) ==>
                  more.names == view.names + [family[m].displayName] && more.unresolved == view.unresolved)
            && ((forall m :: 0 <= m < |family| ==> family[m].accountId != id) ==>
                  more.names == view.names && more.unresolved == view.unresolved + 1)
  {
    NameByLast(family, id);
    assert (ids + [id])[..|ids|] == ids;
    var view, more := DescribeAssignment(ids, toAll, family), DescribeAssignment(ids + [id], toAll, family);
    if m :| LastWithId(family, id, m) {
      assert more.names == view.names + [family[m].displayName];
    }
  }

  /** Account IDs are distinct, and so are the normalised display names, none of them empty. */
  predicate WellNamed(family: Family, rules: Naming)
  {
    && DistinctIds(family)
    && (forall i :: 0 <= i < |family| ==> FullKey(family[i], rules) != "")
    && (forall i, j :: 0 <= i < j < |family| ==> FullKey(family[i], rules) != FullKey(family[j], rules))
  }

  lemma {:induction false} NameOfMember(family: Family, i: nat)
    requires DistinctIds(family) && i < |family|
    ensures family[i].accountId in NameById(family) && NameById(family)[family[i].accountId] == family[i].displayName
  {
    var before := family[..|family| - 1];
    if i < |before| {
      assert before[i] == family[i];
      NameOfMember(before, i);
    }
  }

  lemma FullNameResolves(family: Family, rules: Naming, i: nat)
    requires WellNamed(family, rules) && i < |family|
    ensures ResolveOne(family[i].displayName, family, rules) == Ok(family[i])
  {
    assert OnlyAt(family, i, FullKey(family[i], rules), true, rules);
    MatchIffPicked(FullKey(family[i], rules), family, rules);
    assert Picks(FullKey(family[i], rules), family, rules, i);
  }

  /** Every one of these members belongs to the family. */
  predicate Within(members: seq<Member>, family: Family)
  {
    forall m :: m in members ==> m in family
  }

  lemma {:induction false} DisplayNamesResolve(members: seq<Member>, family: Family, rules: Naming)
    requires WellNamed(family, rules) && DistinctIds(members) && Within(members, family)
    ensures ResolveAll(NamesOf(members), family, rules) == Ok(members)
  {
    if members != [] {
      var before, m := members[..|members| - 1], members[|members| - 1];
      assert members == before + [m];
      DisplayNamesResolve(before, family, rules);
      assert NamesOf(members)[..|members| - 1] == NamesOf(before);
      assert m in family;
      hide WellNamed, ResolveOne, Within;
      var i :| 0 <= i < |family| && family[i] == m;
      FullNameResolves(family, rules, i);
    }
  }

  lemma DescribedByName(members: seq<Member>, toAll: Option<bool>, family: Family)
    requires DistinctIds(family) && Within(members, family)
    ensures DescribeAssignment(IdsOf(members), toAll, family) == View(NamesOf(members), toAll, 0)
  {
    var ids, names := IdsOf(members), NameById(family);
    forall i | 0 <= i < |members|
      ensures ids[i] in names && names[ids[i]] == members[i].displayName
    {
      assert members[i] in family;
      var j :| 0 <= j < |family| && family[j] == members[i];
      NameOfMember(family, j);
    }
    KnownAreIn(ids, names);
    assert DescribeAssignment(ids, toAll, family).names == NamesOf(members);
  }

  lemma OneIsInFamily(name: string, family: Family, rules: Naming)
    ensures ResolveOne(name, family, rules).Ok? ==> ResolveOne(name, family, rules).value in family
  {
    if ResolveOne(name, family, rules).Ok? {
      MatchIffPicked(rules.normalise(name), family, rules);
      var i: nat :| Picks(rules.normalise(name), family, rules, i);
      assert family[i] in family;
    }
  }

  lemma {:induction false} ResolvedWithin(names: seq<string>, family: Family, rules: Naming)
    requires ResolveAll(names, family, rules).Ok?
    ensures Within(ResolveAll(names, family, rules).value, family)
  {
    if names != [] {
      ResolvedWithin(names[..|names| - 1], family, rules);
      OneIsInFamily(names[|names| - 1], family, rules);
    }
  }

  /**
   * In a well-named family, describing a resolved assignment leaves nobody out, and resolving the described names
   * gives the same accounts in the same order.
   */
  lemma DescribeThenResolve(names: seq<string>, family: Family, rules: Naming, toAll: Option<bool>)
    requires WellNamed(family, rules) && Resolve(names, family, rules).Ok?
    ensures var first := Resolve(names, family, rules).value;
            var view := DescribeAssignment(first.accountIds, toAll, family);
            var again := Resolve(view.names, family, rules);
            && view.unresolved == 0 && view.names == first.displayNames && view.everyone == toAll
            && first.toAll == (names == [])
            && again.Ok? && again.value.accountIds == first.accountIds && again.value.displayNames == first.displayNames
  {
    var members := if names == [] then family else ResolveAll(names, family, rules).value;
    if names != [] {
      ResolvedWithin(names, family, rules);
      ResolvedInFirstMentionOrder(names, family, rules);
      SomebodyResolved(names, family, rules);
    }
    DescribedByName(members, toAll, family);
    DisplayNamesResolve(members, family, rules);
  }

  lemma SomebodyResolved(names: seq<string>, family: Family, rules: Naming)
    requires names != [] && ResolveAll(names, family, rules).Ok?
    ensures ResolveAll(names, family, rules).value != []
  {
    ResolvedInFirstMentionOrder(names, family, rules);
    FirstErrorWins(names, family, rules, InvalidName);
    assert Mentions(names, 0, ResolveOne(names[0], family, rules).value.accountId, family, rules);
    assert Mentioned(names, ResolveOne(names[0], family, rules).value.accountId, family, rules);
  }
}
