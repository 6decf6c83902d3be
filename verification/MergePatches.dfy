/**
 Merge patches: the server applies them as section 2 of RFC 7396 says, and the patch the web client computes from
 two metadata objects turns the one into the other whenever a merge patch can.
 */
module MergePatches {
  import opened Wrappers

  datatype Json =
    | Null
    | Bool(value: bool)
    | Number(text: string)
    | String(chars: string)
    | Array(items: seq<Json>)
    | Object(members: map<string, Json>)

  type Members = map<string, Json>

  function Under(m: Members, k: string): Json {
    if k in m then m[k] else Null
  }

  function MembersOf(j: Json): Members {
    if j.Object? then j.members else map[]
  }

  /** Section 2 of RFC 7396; a member that is not there merges like a value that is not an object. */
  function Merge(target: Json, patch: Json): Json
    decreases patch
  {
    if !patch.Object? then patch
    else
      var t := MembersOf(target);
      Object(map k | k in t.Keys + patch.members.Keys && !(k in patch.members && patch.members[k].Null?)
        :: if k in patch.members then Merge(Under(t, k), patch.members[k]) else t[k])
  }

  // ---- the server ----

  /** Edits the target member by member, in no particular order. */
  method ApplyPatch(target: Members, patch: Members) returns (result: Members)
    ensures Object(result) == Merge(Object(target), Object(patch))
    decreases Object(patch)
  {
    result := target;
    var todo := patch.Keys;
    while todo != {}
      invariant todo <= patch.Keys
      invariant result == Object(Applied(target, patch, patch.Keys - todo)).members
      decreases todo
    {
      var k :| k in todo;
      var v := patch[k];
      ghost var done := patch.Keys - todo;
      AppliedOne(target, patch, done, k);
      if v.Null? {
        result := result - {k};
      } else if v.Object? {
        var existing := MembersOf(Under(result, k));
        var merged := ApplyPatch(existing, v.members);
        result := result[k := Object(merged)];
      } else {
        result := result[k := v];
      }
      todo := todo - {k};
      assert patch.Keys - todo == done + {k};
    }
    AppliedAll(target, patch);
    assert patch.Keys - {} == patch.Keys;
  }

  /** The target with the patch's members in `done` merged in. */
  function Applied(target: Members, patch: Members, done: set<string>): Members {
    map k | k in target.Keys + patch.Keys && (k in patch && k in done ==> !patch[k].Null?) && (k !in target ==> k in done)
      :: if k in patch && k in done then Merge(Under(target, k), patch[k]) else Under(target, k)
  }

  lemma AppliedOne(target: Members, patch: Members, done: set<string>, k: string)
    requires k in patch && k !in done && done <= patch.Keys
    ensures Applied(target, patch, done + {k})
         == if patch[k].Null? then Applied(target, patch, done) - {k}
            else Applied(target, patch, done)[k := Merge(Under(Applied(target, patch, done), k), patch[k])]
  {
    assert Under(Applied(target, patch, done), k) == Under(target, k);
  }

  lemma AppliedAll(target: Members, patch: Members)
    ensures Object(Applied(target, patch, patch.Keys)) == Merge(Object(target), Object(patch))
    ensures Applied(target, patch, {}) == target
  {
    assert Applied(target, patch, patch.Keys) == Merge(Object(target), Object(patch)).members;
  }

  // ---- the web client ----

  /** What the client compares values by: equal texts mean equal values, though not the other way round. */
  ghost predicate Sound(same: (Json, Json) -> bool) {
    forall a, b :: same(a, b) ==> a == b
  }

  /** The change one member needs, if it needs any. */
  function Change(before: Members, after: Members, k: string, same: (Json, Json) -> bool): Option<Json>
    decreases Object(after), 0
  {
    if k !in after then if k in before then Some(Null) else None
    else if k in before && before[k].Object? && after[k].Object? then
      var nested := Diff(before[k].members, after[k].members, same);
      if nested == map[] then None else Some(Object(nested))
    else if k in before && same(before[k], after[k]) then None
    else Some(after[k])
  }

  function Diff(before: Members, after: Members, same: (Json, Json) -> bool): Members
    decreases Object(after), 1
  {
    map k | k in before.Keys + after.Keys && Change(before, after, k, same).Some? :: Change(before, after, k, same).value
  }

  /** The part of the patch about some of the members. */
  function Part(before: Members, after: Members, same: (Json, Json) -> bool, done: set<string>): Members {
    map k | k in done && Change(before, after, k, same).Some? :: Change(before, after, k, same).value
  }

  lemma OneMoreChange(before: Members, after: Members, same: (Json, Json) -> bool, done: set<string>, k: string)
    requires k !in done
    ensures Part(before, after, same, done + {k})
      == match Change(before, after, k, same)
         case Some(v) => Part(before, after, same, done)[k := v]
         case None => Part(before, after, same, done)
  {
    hide Change;
  }

  /** Fills the patch in two passes: members that go, then members that are new or differ. */
  method ComputeDiff(before: Members, after: Members, same: (Json, Json) -> bool) returns (patch: Members)
    ensures patch == Diff(before, after, same)
    decreases Object(after)
  {
    hide Part;
    hide Diff;
    patch := map[];
    ghost var done := {};
    NothingDone(before, after, same);
    var todo := before.Keys;
    while todo != {}
      invariant todo <= before.Keys && done == before.Keys - todo - after.Keys
      invariant patch == Part(before, after, same, done)
      decreases todo
    {
      var k :| k in todo;
      if k !in after {
        OneMoreChange(before, after, same, done, k);
        patch, done := patch[k := Null], done + {k};
      }
      todo := todo - {k};
    }
    todo := after.Keys;
    while todo != {}
      invariant todo <= after.Keys && done == before.Keys + after.Keys - todo
      invariant patch == Part(before, after, same, done)
      decreases todo
    {
      var k :| k in todo;
      OneMoreChange(before, after, same, done, k);
      var next := after[k];
      if k in before && before[k].Object? && next.Object? {
        var nested := ComputeDiff(before[k].members, next.members, same);
        if nested != map[] {
          patch := patch[k := Object(nested)];
        }
      } else if !(k in before && same(before[k], next)) {
        patch := patch[k := next];
      }
      todo, done := todo - {k}, done + {k};
    }
    assert done == before.Keys + after.Keys;
    AllDone(before, after, same);
  }

  lemma NothingDone(before: Members, after: Members, same: (Json, Json) -> bool)
    ensures Part(before, after, same, {}) == map[]
  {
  }

  lemma AllDone(before: Members, after: Members, same: (Json, Json) -> bool)
    ensures Part(before, after, same, before.Keys + after.Keys) == Diff(before, after, same)
  {
  }

  // ---- which changes a merge patch can make ----

  /** No null anywhere in the value except inside arrays. */
  predicate NullFree(j: Json) {
    !j.Null? && (j.Object? ==> forall k :: k in j.members ==> NullFree(j.members[k]))
  }

  /** Every null the result is to have is already where it should be. */
  predicate Reachable(before: Members, after: Members, same: (Json, Json) -> bool)
    decreases Object(after), 1
  {
    forall k :: k in after ==> MemberReachable(before, after, same, k)
  }

  lemma {:induction false} FreshMerge(target: Json, patch: Json)
    requires !target.Object? || !patch.Object?
    ensures patch.Null? || (Merge(target, patch) == patch <==> NullFree(patch))
    decreases patch
  {
    if patch.Object? {
      var m := patch.members;
      forall k | k in m ensures m[k].Null? || (Merge(Null, m[k]) == m[k] <==> NullFree(m[k])) {
        FreshMerge(Null, m[k]);
      }
      var r := Merge(target, patch).members;
      if NullFree(patch) {
        assert forall k :: k in m ==> NullFree(m[k]);
        assert r == m;
      } else {
        var k :| k in m && !NullFree(m[k]);
        if !m[k].Null? {
          assert r[k] == Merge(Null, m[k]);
        }
      }
    }
  }

  /** The merged member, if the merge leaves one. */
  function After(before: Members, k: string, change: Option<Json>): Option<Json> {
    if change.None? then if k in before then Some(before[k]) else None
    else if change.value.Null? then None
    else Some(Merge(Under(before, k), change.value))
  }

  function Member(m: Members, k: string): Option<Json> {
    if k in m then Some(m[k]) else None
  }

  lemma SameMembers(a: Members, b: Members)
    requires forall k :: Member(a, k) == Member(b, k)
    ensures a == b
  {
    assert forall k :: k in a <==> Member(a, k).Some?;
    assert forall k :: k in b <==> Member(b, k).Some?;
    assert a.Keys == b.Keys;
    assert forall k :: k in a ==> Member(a, k) == Some(a[k]) && Member(b, k) == Some(b[k]);
  }

  lemma MergedMember(before: Members, after: Members, same: (Json, Json) -> bool, k: string)
    ensures Member(Merge(Object(before), Object(Diff(before, after, same))).members, k)
      == After(before, k, Change(before, after, k, same))
  {
  }

  /** The member can be reached: it is not a new null, and holds none. */
  predicate MemberReachable(before: Members, after: Members, same: (Json, Json) -> bool, k: string)
    decreases Object(after), 0
  {
    k in after ==>
      if k in before && before[k].Object? && after[k].Object? then Reachable(before[k].members, after[k].members, same)
      else (k in before && same(before[k], after[k])) || NullFree(after[k])
  }

  /** Member by member, applying the computed patch reaches the result exactly when the result is reachable. */
  lemma {:induction false} DiffReaches(before: Members, after: Members, same: (Json, Json) -> bool)
    requires Sound(same)
    ensures Merge(Object(before), Object(Diff(before, after, same))) == Object(after) <==> Reachable(before, after, same)
    decreases Object(after)
  {
    var r := Merge(Object(before), Object(Diff(before, after, same))).members;
    forall k ensures Member(r, k) == Member(after, k) <==> MemberReachable(before, after, same, k) {
      MergedMember(before, after, same, k);
      if k in after {
        MemberReaches(before, after, same, k);
      }
    }
    if Reachable(before, after, same) {
      SameMembers(r, after);
    }
  }

  lemma {:induction false} MemberReaches(before: Members, after: Members, same: (Json, Json) -> bool, k: string)
    requires Sound(same) && k in after
    ensures After(before, k, Change(before, after, k, same)) == Some(after[k]) <==> MemberReachable(before, after, same, k)
    decreases Object(after), 0
  {
    if k in before && before[k].Object? && after[k].Object? {
      DiffReaches(before[k].members, after[k].members, same);
      if Diff(before[k].members, after[k].members, same) == map[] {
        EmptyMerge(before[k].members);
      }
    } else if !(k in before && same(before[k], after[k])) {
      FreshMerge(Under(before, k), after[k]);
    }
  }

  lemma EmptyMerge(target: Members)
    ensures Merge(Object(target), Object(map[])) == Object(target)
  {
    assert Merge(Object(target), Object(map[])).members == target;
  }

  /** A patch of what has no nulls outside arrays always reaches it. */
  lemma {:induction false} NullFreeIsReachable(before: Members, after: Members, same: (Json, Json) -> bool)
    requires forall k :: k in after ==> NullFree(after[k])
    ensures Reachable(before, after, same)
    decreases Object(after)
  {
    forall k | k in after ensures MemberReachable(before, after, same, k) {
      if k in before && before[k].Object? && after[k].Object? {
        NullFreeIsReachable(before[k].members, after[k].members, same);
      }
    }
  }

  /** An empty patch means nothing differs. */
  lemma {:induction false} EmptyDiffMeansEqual(before: Members, after: Members, same: (Json, Json) -> bool)
    requires Sound(same) && Diff(before, after, same) == map[]
    ensures before == after
    decreases Object(after)
  {
    forall k ensures Member(before, k) == Member(after, k) {
      ChangedIsInDiff(before, after, same, k);
      if k in before && k in after && before[k].Object? && after[k].Object? {
        EmptyDiffMeansEqual(before[k].members, after[k].members, same);
      }
    }
    SameMembers(before, after);
  }

  lemma ChangedIsInDiff(before: Members, after: Members, same: (Json, Json) -> bool, k: string)
    ensures Change(before, after, k, same).Some? <==> k in Diff(before, after, same)
  {
  }

  /** A null that is not there yet cannot be reached: the patch removes the member instead. */
  lemma NullIsNotReached(same: (Json, Json) -> bool)
    requires Sound(same)
    ensures var after: Members := map["a" := Null];
      Merge(Object(map[]), Object(Diff(map[], after, same))) != Object(after)
  {
    DiffReaches(map[], map["a" := Null], same);
    assert !MemberReachable(map[], map["a" := Null], same, "a");
    assert !Reachable(map[], map["a" := Null], same);
  }
}
