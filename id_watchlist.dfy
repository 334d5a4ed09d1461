/** The id-only watchlist hook of src/hooks/watchlist.ts: a list of movie ids
    that `toggle` replaces through `save`, and the two queries on it. */
module IdWatchlist {
  import opened Movies

  /** `ids.filter(x => x !== id)`. */
  function RemoveAll(ids: seq<int>, id: int): (r: seq<int>)
    ensures id !in r
    ensures forall x :: x in r <==> x in ids && x != id
    ensures Subsequence(r, ids)
    ensures |r| <= |ids| && (|r| < |ids| <==> id in ids)
    ensures Distinct(ids) ==> Distinct(r)
    decreases |ids|
  {
    if ids == [] then []
    else
      var rest := RemoveAll(ids[1..], id);
      MemberCons(ids);
      if ids[0] == id then
        assert rest != [] ==> rest[0] in rest;
        rest
      else
        var r := [ids[0]] + rest;
        assert r[1..] == rest;
        if Distinct(ids) then
          DistinctCons(ids);
          DistinctCons(r);
          r
        else
          r
  }

  /** The filter keeps every other id as often as it occurred. */
  lemma {:induction false} RemoveAllCounts(ids: seq<int>, id: int)
    ensures multiset(RemoveAll(ids, id)) == multiset(ids)[id := 0]
    decreases |ids|
  {
    if ids != [] {
      RemoveAllCounts(ids[1..], id);
      assert ids == [ids[0]] + ids[1..];
    }
  }

  lemma MemberCons(s: seq<int>)
    requires s != []
    ensures forall x :: x in s <==> x == s[0] || x in s[1..]
  {
    assert s == [s[0]] + s[1..];
  }

  lemma DistinctCons(s: seq<int>)
    requires s != []
    ensures Distinct(s) <==> Distinct(s[1..]) && s[0] !in s[1..]
  {
    if Distinct(s[1..]) && s[0] !in s[1..] {
      forall i, j | 0 <= i < j < |s| ensures s[i] != s[j] {
        if i == 0 {
          assert s[j] == s[1..][j - 1];
        } else {
          assert s[i] == s[1..][i - 1] && s[j] == s[1..][j - 1];
        }
      }
    }
    if Distinct(s) {
      forall k | 0 <= k < |s[1..]| ensures s[1..][k] != s[0] {
        assert s[1..][k] == s[k + 1];
      }
    }
  }

  /** The `updated` list of `toggle`: without every copy of `id` when it is
      there, otherwise with `id` appended. */
  function ToggleId(ids: seq<int>, id: int): (r: seq<int>)
    ensures id in r <==> id !in ids
    ensures forall x :: x != id ==> (x in r <==> x in ids)
    ensures RemoveAll(r, id) == RemoveAll(ids, id)
    ensures id !in ids ==> r == ids + [id]
    ensures Distinct(ids) ==> Distinct(r)
  {
    if id in ids then
      RemoveAllOfClean(RemoveAll(ids, id), id);
      RemoveAll(ids, id)
    else
      var r := ids + [id];
      RemoveAllAppend(ids, [id], id);
      RemoveAllOfClean(ids, id);
      assert RemoveAll([id], id) == [];
      AppendFresh(ids, id);
      r
  }

  lemma AppendFresh(ids: seq<int>, id: int)
    requires id !in ids
    ensures Distinct(ids) ==> Distinct(ids + [id])
  {
    var r := ids + [id];
    if Distinct(ids) {
      forall i, j | 0 <= i < j < |r| ensures r[i] != r[j] {
        assert r[i] == ids[i];
        if j < |ids| {
          assert r[j] == ids[j];
        }
      }
    }
  }

  lemma {:induction false} RemoveAllAppend(a: seq<int>, b: seq<int>, id: int)
    ensures RemoveAll(a + b, id) == RemoveAll(a, id) + RemoveAll(b, id)
    decreases |a|
  {
    if a != [] {
      assert (a + b)[1..] == a[1..] + b;
      RemoveAllAppend(a[1..], b, id);
    } else {
      assert a + b == b;
    }
  }

  /** Filtering out an id that is not there changes nothing. */
  lemma {:induction false} RemoveAllOfClean(s: seq<int>, id: int)
    requires id !in s
    ensures RemoveAll(s, id) == s
    decreases |s|
  {
    if s != [] {
      MemberCons(s);
      RemoveAllOfClean(s[1..], id);
      assert s == [s[0]] + s[1..];
    }
  }

  /** From an absent id, two toggles restore the list exactly. */
  lemma ToggleIdTwiceFromAbsent(ids: seq<int>, id: int)
    requires id !in ids
    ensures ToggleId(ToggleId(ids, id), id) == ids
  {
    RemoveAllAppend(ids, [id], id);
    RemoveAllOfClean(ids, id);
    assert RemoveAll([id], id) == [];
  }

  /** From a present id, two toggles keep the same ids but move `id` to the
      end of the list. */
  lemma ToggleIdTwiceFromPresent(ids: seq<int>, id: int)
    requires id in ids
    ensures ToggleId(ToggleId(ids, id), id) == RemoveAll(ids, id) + [id]
    ensures forall x :: x in ToggleId(ToggleId(ids, id), id) <==> x in ids
  {
  }

  /** A witness that two toggles need not restore a duplicate-free list. */
  lemma ToggleIdTwiceReorders()
    ensures Distinct([1, 2]) && ToggleId(ToggleId([1, 2], 1), 1) == [2, 1]
  {
    assert RemoveAll([2], 1) == [2];
    assert RemoveAll([1, 2], 1) == [2] by {
      assert [1, 2][1..] == [2];
    }
  }

  class IdWatchlist {
    var ids: seq<int>
    /** The list most recently handed to `save`, standing for the write to
        storage under the "watchlist" key. */
    ghost var saved: seq<int>

    constructor ()
      ensures ids == []
    {
      ids := [];
      saved := [];
    }

    /** The mount effect: a stored list replaces the initial one; a missing
        (or empty) stored value leaves it. */
    method Load(stored: Option<seq<int>>)
      modifies this
      ensures stored.Some? ==> ids == stored.value
      ensures stored.None? ==> ids == old(ids)
      ensures saved == old(saved)
    {
      if stored.Some? {
        ids := stored.value;
      }
    }

    /** `save`: the state becomes exactly the given list. */
    method Save(newIds: seq<int>)
      modifies this
      ensures ids == newIds && saved == newIds
    {
      saved := newIds;
      ids := newIds;
    }

    /** `toggle`: save the toggled list. */
    method Toggle(id: int)
      modifies this
      ensures ids == ToggleId(old(ids), id) && saved == ids
      ensures IsSaved(id) <==> !old(IsSaved(id))
      ensures forall x :: x != id ==> (IsSaved(x) <==> old(IsSaved(x)))
      ensures old(Distinct(ids)) ==> Distinct(ids)
    {
      var updated := ToggleId(ids, id);
      Save(updated);
    }

    /** `isSaved`: list membership. */
    function IsSaved(id: int): (b: bool)
      reads this
      ensures b <==> exists i :: 0 <= i < |ids| && ids[i] == id
    {
      id in ids
    }

    /** `getAll`: the current state itself. */
    function GetAll(): (r: seq<int>)
      reads this
      ensures r == ids
    {
      ids
    }
  }
}
