/**
 * Structured JSON values as SQLite's JSONB keeps them (object members in
 * order) and JSON Merge Patch as `jsonb_patch` applies it (section 2 of
 * RFC 7396). `JSON.stringify` dropping `undefined` members is represented
 * by the member being absent.
 */
module Json {
  import opened Wrappers

  datatype Json =
    | Null
    | Bool(b: bool)
    | Num(n: int)
    | Str(s: string)
    | Arr(items: seq<Json>)
    | Obj(members: seq<Member>)

  datatype Member = Member(key: string, value: Json)

  /** The keys of an object's members, in member order. */
  function Keys(ms: seq<Member>): (r: seq<string>)
    ensures |r| == |ms|
    ensures forall i :: 0 <= i < |ms| ==> r[i] == ms[i].key
  {
    if |ms| == 0 then [] else [ms[0].key] + Keys(ms[1..])
  }

  predicate UniqueKeys(ms: seq<Member>)
  {
    forall i, j :: 0 <= i < j < |ms| ==> ms[i].key != ms[j].key
  }

  /**
   * Objects have unique keys, and so do the objects nested in their member
   * values (what `JSON.parse` / `jsonb` produce from serialised objects).
   */
  predicate WellFormed(j: Json)
  {
    match j
    case Obj(ms) => UniqueKeys(ms) && forall i :: 0 <= i < |ms| ==> WellFormed(ms[i].value)
    case _ => true
  }

  /** No object member, at any depth through objects, holds `null`. */
  predicate NullFree(j: Json)
  {
    match j
    case Obj(ms) => forall i :: 0 <= i < |ms| ==> ms[i].value != Null && NullFree(ms[i].value)
    case _ => true
  }

  /** `obj[k]`: the value of the first member named `k`. */
  function Get(ms: seq<Member>, k: string): (r: Option<Json>)
    ensures r.None? <==> k !in Keys(ms)
    ensures r.Some? ==> Member(k, r.value) in ms
  {
    if |ms| == 0 then None
    else if ms[0].key == k then Some(ms[0].value)
    else Get(ms[1..], k)
  }

  function GetOrNull(ms: seq<Member>, k: string): Json
  {
    Get(ms, k).GetOr(Null)
  }

  /** The member of a value that is an object; nothing for any other value. */
  function Prop(j: Json, k: string): (r: Option<Json>)
    ensures r.Some? ==> j.Obj?
  {
    if j.Obj? then Get(j.members, k) else None
  }

  /** With unique keys, looking up a member's key finds that member. */
  lemma {:induction false} GetUnique(ms: seq<Member>, i: nat)
    requires UniqueKeys(ms) && i < |ms|
    ensures Get(ms, ms[i].key) == Some(ms[i].value)
  {
    if i > 0 {
      GetUnique(ms[1..], i - 1);
    }
  }

  /**
   * `obj[k] = v`: the first member named `k` gets the value `v` where it
   * stands; without one, the member is appended.
   */
  function Put(ms: seq<Member>, k: string, v: Json): (r: seq<Member>)
    ensures Get(r, k) == Some(v)
    ensures forall k' :: k' != k ==> Get(r, k') == Get(ms, k')
    ensures forall m :: m in r ==> m in ms || m == Member(k, v)
  {
    if |ms| == 0 then [Member(k, v)]
    else if ms[0].key == k then [Member(k, v)] + ms[1..]
    else [ms[0]] + Put(ms[1..], k, v)
  }

  /**
   * Member order under `Put`: an existing name is updated where it stands,
   * a new name goes last.
   */
  lemma PutKeys(ms: seq<Member>, k: string, v: Json)
    ensures k in Keys(ms) ==> Keys(Put(ms, k, v)) == Keys(ms)
    ensures k !in Keys(ms) ==> Keys(Put(ms, k, v)) == Keys(ms) + [k]
  {
    if k in Keys(ms) {
      PutKeysPresent(ms, k, v);
    } else {
      PutKeysAbsent(ms, k, v);
    }
  }

  lemma {:induction false} PutKeysPresent(ms: seq<Member>, k: string, v: Json)
    requires k in Keys(ms)
    ensures Keys(Put(ms, k, v)) == Keys(ms)
  {
    if ms[0].key != k {
      assert Keys(ms) == [ms[0].key] + Keys(ms[1..]);
      PutKeysPresent(ms[1..], k, v);
      assert Keys(Put(ms, k, v)) == [ms[0].key] + Keys(Put(ms[1..], k, v));
    }
  }

  lemma {:induction false} PutKeysAbsent(ms: seq<Member>, k: string, v: Json)
    requires k !in Keys(ms)
    ensures Keys(Put(ms, k, v)) == Keys(ms) + [k]
  {
    if |ms| > 0 {
      assert Keys(ms) == [ms[0].key] + Keys(ms[1..]);
      PutKeysAbsent(ms[1..], k, v);
      assert Keys(Put(ms, k, v)) == [ms[0].key] + Keys(Put(ms[1..], k, v));
    }
  }

  /** Writing back the value a key already has changes nothing. */
  lemma {:induction false} PutExisting(ms: seq<Member>, k: string, v: Json)
    requires Get(ms, k) == Some(v)
    ensures Put(ms, k, v) == ms
  {
    if |ms| > 0 && ms[0].key != k {
      PutExisting(ms[1..], k, v);
    }
  }

  /** `Put` keeps member names unique. */
  lemma {:induction false} PutUnique(ms: seq<Member>, k: string, v: Json)
    requires UniqueKeys(ms)
    ensures UniqueKeys(Put(ms, k, v))
  {
    if |ms| > 0 && ms[0].key != k {
      var rest := ms[1..];
      TailUnique(ms);
      PutUnique(rest, k, v);
      PutKeys(rest, k, v);
      assert ms[0].key !in Keys(rest) by {
        forall j | 0 <= j < |rest| ensures rest[j].key != ms[0].key {
          assert rest[j] == ms[j + 1];
        }
      }
      ConsFreshUnique(ms[0], Put(rest, k, v));
    }
  }

  /** The tail of a member list with unique keys has unique keys. */
  lemma TailUnique(ms: seq<Member>)
    requires |ms| > 0
    ensures UniqueKeys(ms) ==> UniqueKeys(ms[1..])
  {
    var rest := ms[1..];
    forall i, j | 0 <= i < j < |rest| && UniqueKeys(ms) ensures rest[i].key != rest[j].key {
      assert rest[i] == ms[i + 1] && rest[j] == ms[j + 1];
    }
  }

  /** A member whose key the others lack, in front of members with unique keys. */
  lemma ConsFreshUnique(head: Member, tail: seq<Member>)
    requires UniqueKeys(tail) && head.key !in Keys(tail)
    ensures UniqueKeys([head] + tail)
  {
    var r := [head] + tail;
    forall i, j | 0 <= i < j < |r| ensures r[i].key != r[j].key {
      assert r[j] == tail[j - 1];
      if i > 0 {
        assert r[i] == tail[i - 1];
      } else {
        assert Keys(tail)[j - 1] == tail[j - 1].key;
      }
    }
  }

  /** `delete obj[k]`: every member named `k` goes, the others keep their order. */
  function Remove(ms: seq<Member>, k: string): (r: seq<Member>)
    ensures Get(r, k) == None
    ensures forall k' :: k' != k ==> Get(r, k') == Get(ms, k')
    ensures forall m :: m in r ==> m in ms && m.key != k
    ensures k !in Keys(ms) ==> r == ms
    ensures UniqueKeys(ms) ==> UniqueKeys(r)
  {
    if |ms| == 0 then []
    else
      TailUnique(ms);
      assert Keys(ms) == [ms[0].key] + Keys(ms[1..]);
      if ms[0].key == k then Remove(ms[1..], k)
      else
        var rest := Remove(ms[1..], k);
        ConsUnique(ms, rest);
        [ms[0]] + rest
  }

  /** Putting back the head of a list with unique keys in front of a sub-list of its tail keeps keys unique. */
  lemma ConsUnique(ms: seq<Member>, rest: seq<Member>)
    requires |ms| > 0
    requires forall m :: m in rest ==> m in ms[1..]
    requires UniqueKeys(ms[1..]) ==> UniqueKeys(rest)
    ensures UniqueKeys(ms) ==> UniqueKeys([ms[0]] + rest)
  {
    if UniqueKeys(ms) {
      assert UniqueKeys(ms[1..]);
      var r := [ms[0]] + rest;
      forall j | 0 < j < |r| ensures r[0].key != r[j].key {
        assert r[j] in rest;
        var m :| 0 <= m < |ms[1..]| && ms[1..][m] == r[j];
        assert ms[1..][m] == ms[m + 1];
      }
    }
  }

  // ---------------------------------------------------------------------
  // JSON Merge Patch (section 2 of RFC 7396)

  /**
   * MergePatch(Target, Patch): a patch that is not an object replaces the
   * target; an object patch is applied member by member to the target's
   * members (or to an empty object when the target is not one).
   */
  function MergePatch(target: Json, patch: Json): (r: Json)
    ensures !patch.Obj? ==> r == patch
    ensures patch.Obj? ==> r.Obj?
    decreases patch, 1
  {
    match patch
    case Obj(pm) => Obj(MergeMembers(if target.Obj? then target.members else [], pm))
    case _ => patch
  }

  /**
   * One pass over the patch members: a `null` value removes the name from
   * the target, any other value becomes MergePatch(Target[Name], Value).
   */
  function MergeMembers(tm: seq<Member>, pm: seq<Member>): seq<Member>
    decreases pm, 0
  {
    if |pm| == 0 then tm
    else
      var m := pm[0];
      var next := if m.value == Null then Remove(tm, m.key)
                  else Put(tm, m.key, MergePatch(GetOrNull(tm, m.key), m.value));
      MergeMembers(next, pm[1..])
  }

  /** Names absent from the patch keep their target value. */
  lemma {:induction false} MergeFrame(tm: seq<Member>, pm: seq<Member>, k: string)
    requires k !in Keys(pm)
    ensures Get(MergeMembers(tm, pm), k) == Get(tm, k)
    decreases pm
  {
    if |pm| > 0 {
      var m := pm[0];
      var next := if m.value == Null then Remove(tm, m.key)
                  else Put(tm, m.key, MergePatch(GetOrNull(tm, m.key), m.value));
      MergeFrame(next, pm[1..], k);
    }
  }

  /**
   * A patch member decides its name: `null` deletes it, any other value
   * sets it to MergePatch(old value, patch value).
   */
  lemma {:induction false} MergeAt(tm: seq<Member>, pm: seq<Member>, k: string)
    requires UniqueKeys(pm) && k in Keys(pm)
    ensures var v := Get(pm, k).value;
      Get(MergeMembers(tm, pm), k)
      == if v == Null then None else Some(MergePatch(GetOrNull(tm, k), v))
    decreases pm
  {
    var m := pm[0];
    var next := if m.value == Null then Remove(tm, m.key)
                else Put(tm, m.key, MergePatch(GetOrNull(tm, m.key), m.value));
    var rest := pm[1..];
    assert MergeMembers(tm, pm) == MergeMembers(next, rest);
    if m.key == k {
      assert k !in Keys(rest) by {
        forall j | 0 <= j < |rest| ensures rest[j].key != k {
          assert rest[j] == pm[j + 1];
        }
      }
      MergeFrame(next, rest, k);
    } else {
      assert UniqueKeys(rest) by {
        forall i, j | 0 <= i < j < |rest| ensures rest[i].key != rest[j].key {
          assert rest[i] == pm[i + 1] && rest[j] == pm[j + 1];
        }
      }
      assert Keys(pm) == [m.key] + Keys(rest);
      assert Get(pm, k) == Get(rest, k);
      assert Get(next, k) == Get(tm, k);
      MergeAt(next, rest, k);
    }
  }

  /** A non-null patch member overwrites: the name ends up holding the merged value. */
  lemma MergeOverwrites(target: Json, patch: Json, k: string)
    requires patch.Obj? && UniqueKeys(patch.members)
    requires Prop(patch, k).Some? && Prop(patch, k).value != Null
    ensures var tm := if target.Obj? then target.members else [];
      Prop(MergePatch(target, patch), k) == Some(MergePatch(GetOrNull(tm, k), Prop(patch, k).value))
  {
    MergeAt(if target.Obj? then target.members else [], patch.members, k);
  }

  /** A patch member that is `null` deletes the name. */
  lemma MergeDeletes(target: Json, patch: Json, k: string)
    requires patch.Obj? && UniqueKeys(patch.members)
    requires Prop(patch, k) == Some(Null)
    ensures Prop(MergePatch(target, patch), k) == None
  {
    MergeAt(if target.Obj? then target.members else [], patch.members, k);
  }

  /** A name the patch does not mention keeps the value the target object has. */
  lemma MergeKeeps(target: Json, patch: Json, k: string)
    requires target.Obj? && patch.Obj? && k !in Keys(patch.members)
    ensures Prop(MergePatch(target, patch), k) == Prop(target, k)
  {
    MergeFrame(target.members, patch.members, k);
  }

  /** The target already agrees with a patch member. */
  predicate Absorbed(tm: seq<Member>, m: Member)
  {
    if m.value == Null then Get(tm, m.key) == None
    else Get(tm, m.key).Some? && MergePatch(Get(tm, m.key).value, m.value) == Get(tm, m.key).value
  }

  /** A target that agrees with every member of a patch is left unchanged by it. */
  lemma {:induction false} MergeSettled(tm: seq<Member>, pm: seq<Member>)
    requires forall i :: 0 <= i < |pm| ==> Absorbed(tm, pm[i])
    ensures MergeMembers(tm, pm) == tm
  {
    if |pm| > 0 {
      var m := pm[0];
      assert Absorbed(tm, m);
      if m.value != Null {
        PutExisting(tm, m.key, Get(tm, m.key).value);
      }
      assert forall i :: 0 <= i < |pm[1..]| ==> Absorbed(tm, pm[1..][i]) by {
        forall i | 0 <= i < |pm[1..]| ensures Absorbed(tm, pm[1..][i]) {
          assert pm[1..][i] == pm[i + 1];
        }
      }
      MergeSettled(tm, pm[1..]);
    }
  }

  /** Applying the same patch twice is applying it once. */
  lemma {:induction false} MergePatchIdempotent(target: Json, patch: Json)
    requires WellFormed(patch)
    ensures MergePatch(MergePatch(target, patch), patch) == MergePatch(target, patch)
    decreases patch
  {
    if patch.Obj? {
      var pm := patch.members;
      var tm := if target.Obj? then target.members else [];
      var r := MergeMembers(tm, pm);
      forall i | 0 <= i < |pm| ensures Absorbed(r, pm[i]) {
        var k := pm[i].key;
        GetUnique(pm, i);
        MergeAt(tm, pm, k);
        if pm[i].value != Null {
          MergePatchIdempotent(GetOrNull(tm, k), pm[i].value);
        }
      }
      MergeSettled(r, pm);
    }
  }

  /** A well-formed value without null members patched onto itself stays itself. */
  lemma {:induction false} MergePatchSelf(x: Json)
    requires WellFormed(x) && NullFree(x)
    ensures MergePatch(x, x) == x
    decreases x
  {
    if x.Obj? {
      MergeSubset(x.members, x.members);
    }
  }

  /**
   * A patch made of some of the target's own members (none of them null)
   * is absorbed: the target comes back unchanged.
   */
  lemma {:induction false} MergeSubset(tm: seq<Member>, pm: seq<Member>)
    requires UniqueKeys(tm)
    requires forall i :: 0 <= i < |tm| ==> tm[i].value != Null && WellFormed(tm[i].value) && NullFree(tm[i].value)
    requires forall m :: m in pm ==> m in tm
    ensures MergeMembers(tm, pm) == tm
    decreases tm, 0
  {
    forall i | 0 <= i < |pm| ensures Absorbed(tm, pm[i]) {
      assert pm[i] in tm;
      var j :| 0 <= j < |tm| && tm[j] == pm[i];
      GetUnique(tm, j);
      MergePatchSelf(tm[j].value);
    }
    MergeSettled(tm, pm);
  }

  /**
   * An object without null members, patched with itself minus the members
   * named `k`, stays itself; the patch is well-formed.
   */
  lemma RemoveAbsorbed(x: Json, k: string)
    requires x.Obj? && WellFormed(x) && NullFree(x)
    ensures WellFormed(Obj(Remove(x.members, k)))
    ensures MergePatch(x, Obj(Remove(x.members, k))) == x
  {
    var pm := Remove(x.members, k);
    MergeSubset(x.members, pm);
    forall i | 0 <= i < |pm| ensures WellFormed(pm[i].value) {
      assert pm[i] in x.members;
    }
  }

  /**
   * Merging a patch into a well-formed target keeps it well-formed: keys
   * stay unique at every depth.
   */
  lemma {:induction false} MergePatchWellFormed(target: Json, patch: Json)
    requires WellFormed(target) && WellFormed(patch)
    ensures WellFormed(MergePatch(target, patch))
    decreases patch, 1
  {
    if patch.Obj? {
      MergeMembersWellFormed(if target.Obj? then target.members else [], patch.members);
    }
  }

  lemma {:induction false} MergeMembersWellFormed(tm: seq<Member>, pm: seq<Member>)
    requires UniqueKeys(tm) && forall i :: 0 <= i < |tm| ==> WellFormed(tm[i].value)
    requires forall i :: 0 <= i < |pm| ==> WellFormed(pm[i].value)
    ensures WellFormed(Obj(MergeMembers(tm, pm)))
    decreases pm, 0
  {
    if |pm| > 0 {
      var m := pm[0];
      var next: seq<Member>;
      if m.value == Null {
        next := Remove(tm, m.key);
        forall i | 0 <= i < |next| ensures WellFormed(next[i].value) {
          assert next[i] in next;
        }
      } else {
        var prior := GetOrNull(tm, m.key);
        assert WellFormed(prior) by {
          if Get(tm, m.key).Some? {
            var j :| 0 <= j < |tm| && tm[j] == Member(m.key, prior);
          }
        }
        MergePatchWellFormed(prior, m.value);
        next := Put(tm, m.key, MergePatch(prior, m.value));
        PutUnique(tm, m.key, MergePatch(prior, m.value));
        forall i | 0 <= i < |next| ensures WellFormed(next[i].value) {
          assert next[i] in next;
        }
      }
      forall i | 0 <= i < |pm[1..]| ensures WellFormed(pm[1..][i].value) {
        assert pm[1..][i] == pm[i + 1];
      }
      MergeMembersWellFormed(next, pm[1..]);
    }
  }
}
