/**
 * The fortunes page of both benchmarks: the stored fortunes with one extra
 * fortune appended, then `sortedBy { it.message }`, a stable sort by message.
 */
module Fortunes {
  import opened KotlinText

  /** `Fortune(_id, message)`; `storeId` is the store's `_id`. */
  datatype Fortune = Fortune(storeId: int, message: string)

  /** The fortune added at request time. */
  const Additional: Fortune := Fortune(0, "Additional fortune added at request time.")

  /** Non-decreasing by message, for every pair of positions. */
  predicate Sorted(s: seq<Fortune>) {
    forall i, j :: 0 <= i < j < |s| ==> LessEq(s[i].message, s[j].message)
  }

  /** The fortunes of `s` whose message is `k`, in their order in `s`. */
  function WithMessage(s: seq<Fortune>, k: string): seq<Fortune> {
    if s == [] then [] else (if s[0].message == k then [s[0]] else []) + WithMessage(s[1..], k)
  }

  /**
   * What a stable sort by message promises of `r` given `s`: ordered by
   * message, and for every message the fortunes carrying it appear in the
   * order they had in `s` (hence `r` holds the same fortunes as `s`).
   */
  ghost predicate StablySortedFrom(s: seq<Fortune>, r: seq<Fortune>) {
    Sorted(r) && forall k :: WithMessage(r, k) == WithMessage(s, k)
  }

  lemma {:induction false} WithMessageMember(s: seq<Fortune>, k: string, f: Fortune)
    requires f in WithMessage(s, k)
    ensures f in s && f.message == k
  {
    if s != [] && !(s[0].message == k && f == s[0]) {
      WithMessageMember(s[1..], k, f);
    }
  }

  lemma WithMessageCons(f: Fortune, s: seq<Fortune>, k: string)
    ensures WithMessage([f] + s, k) == (if f.message == k then [f] else []) + WithMessage(s, k)
  {
  }

  /** `[x] + s` is sorted when `x`'s message is not above the first of sorted `s`. */
  lemma {:induction false} SortedFront(x: Fortune, s: seq<Fortune>)
    requires Sorted(s)
    requires s != [] ==> LessEq(x.message, s[0].message)
    ensures Sorted([x] + s)
  {
    forall j | 0 <= j < |s| ensures LessEq(x.message, s[j].message) {
      if j > 0 { LessEqTransitive(x.message, s[0].message, s[j].message); }
    }
    var r := [x] + s;
    assert forall j :: 0 < j < |r| ==> r[j] == s[j - 1];
  }

  /** The step case of `Insert` keeps the order: `s[0]` is not above anything inserted after it. */
  lemma {:induction false} InsertStepSorted(x: Fortune, s: seq<Fortune>, t: seq<Fortune>)
    requires Sorted(s) && s != [] && !LessEq(x.message, s[0].message)
    requires Sorted(t)
    requires multiset(t) == multiset(s[1..]) + multiset{x}
    ensures Sorted([s[0]] + t)
  {
    LessEqTotal(x.message, s[0].message);
    forall j | 0 <= j < |t| ensures LessEq(s[0].message, t[j].message) {
      assert t[j] in multiset(t);
      if t[j] != x {
        assert t[j] in multiset(s[1..]);
        var i :| 0 <= i < |s[1..]| && s[1..][i] == t[j];
        assert s[i + 1] == t[j];
      }
    }
    var r := [s[0]] + t;
    assert forall j :: 0 < j < |r| ==> r[j] == t[j - 1];
  }

  /** The step case of `Insert` keeps, message by message, the order of `[x] + s`. */
  lemma {:induction false} InsertStepStable(x: Fortune, s: seq<Fortune>, t: seq<Fortune>)
    requires s != [] && !LessEq(x.message, s[0].message)
    requires forall k :: WithMessage(t, k) == WithMessage([x] + s[1..], k)
    ensures forall k :: WithMessage([s[0]] + t, k) == WithMessage([x] + s, k)
  {
    LessEqReflexive(x.message);
    assert s == [s[0]] + s[1..];
    forall k ensures WithMessage([s[0]] + t, k) == WithMessage([x] + s, k) {
      WithMessageCons(s[0], t, k);
      WithMessageCons(x, s[1..], k);
      WithMessageCons(x, s, k);
      WithMessageCons(s[0], s[1..], k);
    }
  }

  /** Insert `x` into sorted `s` before the first fortune whose message is not below `x`'s. */
  function Insert(x: Fortune, s: seq<Fortune>): (r: seq<Fortune>)
    requires Sorted(s)
    ensures Sorted(r)
    ensures multiset(r) == multiset(s) + multiset{x}
    ensures forall k :: WithMessage(r, k) == WithMessage([x] + s, k)
  {
    if s == [] || LessEq(x.message, s[0].message) then
      SortedFront(x, s);
      [x] + s
    else
      var t := Insert(x, s[1..]);
      InsertStepSorted(x, s, t);
      InsertStepStable(x, s, t);
      assert s == [s[0]] + s[1..];
      [s[0]] + t
  }

  /** `sortedBy { it.message }`: insertion sort, which keeps equal messages in input order. */
  function SortByMessage(s: seq<Fortune>): (r: seq<Fortune>)
    ensures multiset(r) == multiset(s)
    ensures StablySortedFrom(s, r)
  {
    if s == [] then []
    else
      var t := SortByMessage(s[1..]);
      assert s == [s[0]] + s[1..];
      forall k ensures WithMessage([s[0]] + t, k) == WithMessage(s, k) {
        WithMessageCons(s[0], t, k);
        WithMessageCons(s[0], s[1..], k);
      }
      Insert(s[0], t)
  }

  /** `(store.findAllFortunes() + Additional).sortedBy { it.message }`. */
  function ListFortunes(stored: seq<Fortune>): (r: seq<Fortune>)
    ensures |r| == |stored| + 1
    ensures Additional in r
    ensures multiset(r) == multiset(stored) + multiset{Additional}
    ensures StablySortedFrom(stored + [Additional], r)
  {
    var r := SortByMessage(stored + [Additional]);
    assert Additional in multiset(r) by {
      assert (stored + [Additional])[|stored|] == Additional;
    }
    r
  }

  lemma {:induction false} WithMessageAppend(a: seq<Fortune>, b: seq<Fortune>, k: string)
    ensures WithMessage(a + b, k) == WithMessage(a, k) + WithMessage(b, k)
  {
    if a == [] {
      assert a + b == b;
    } else {
      assert (a + b)[1..] == a[1..] + b;
      WithMessageAppend(a[1..], b, k);
      var h := if a[0].message == k then [a[0]] else [];
      calc {
        WithMessage(a + b, k);
        h + WithMessage(a[1..] + b, k);
        h + (WithMessage(a[1..], k) + WithMessage(b, k));
        (h + WithMessage(a[1..], k)) + WithMessage(b, k);
      }
    }
  }

  /** Among fortunes sharing its message, the additional one comes after all stored ones. */
  lemma AdditionalAfterEqualMessages(stored: seq<Fortune>)
    ensures WithMessage(ListFortunes(stored), Additional.message)
         == WithMessage(stored, Additional.message) + [Additional]
  {
    WithMessageAppend(stored, [Additional], Additional.message);
    assert [Additional][1..] == [];
  }

  lemma WithMessageHead(s: seq<Fortune>)
    requires s != []
    ensures WithMessage(s, s[0].message) != []
  {
  }

  /**
   * The stable-sort property has only one solution: any two lists ordered by
   * message that agree, message by message, on the order of their fortunes
   * are the same list.
   */
  lemma {:induction false} StableSortUnique(a: seq<Fortune>, b: seq<Fortune>)
    requires Sorted(a) && Sorted(b)
    requires forall k :: WithMessage(a, k) == WithMessage(b, k)
    ensures a == b
    decreases |a| + |b|
  {
    if a == [] && b == [] {
    } else if a == [] {
      WithMessageHead(b);
      assert false;
    } else if b == [] {
      WithMessageHead(a);
      assert false;
    } else {
      var ka, kb := a[0].message, b[0].message;
      assert a[0] in WithMessage(a, ka);
      WithMessageMember(b, ka, a[0]);
      var j :| 0 <= j < |b| && b[j] == a[0];
      LessEqReflexive(kb);
      assert LessEq(kb, ka);
      assert b[0] in WithMessage(b, kb);
      WithMessageMember(a, kb, b[0]);
      var i :| 0 <= i < |a| && a[i] == b[0];
      LessEqReflexive(ka);
      assert LessEq(ka, kb);
      LessEqAntisymmetric(ka, kb);
      assert WithMessage(a, ka) == [a[0]] + WithMessage(a[1..], ka);
      assert WithMessage(b, ka) == [b[0]] + WithMessage(b[1..], ka);
      assert ([a[0]] + WithMessage(a[1..], ka))[0] == a[0];
      assert ([b[0]] + WithMessage(b[1..], ka))[0] == b[0];
      assert a[0] == b[0];
      forall k ensures WithMessage(a[1..], k) == WithMessage(b[1..], k) {
        var h := if ka == k then [a[0]] else [];
        assert WithMessage(a, k) == h + WithMessage(a[1..], k);
        assert WithMessage(b, k) == h + WithMessage(b[1..], k);
        assert WithMessage(a[1..], k) == WithMessage(a, k)[|h|..];
        assert WithMessage(b[1..], k) == WithMessage(b, k)[|h|..];
      }
      StableSortUnique(a[1..], b[1..]);
      assert a == [a[0]] + a[1..] && b == [b[0]] + b[1..];
    }
  }

  /** Any stable sort by message of stored-plus-additional (TimSort included) yields `ListFortunes`. */
  lemma ListFortunesIsTheStableSort(stored: seq<Fortune>, r: seq<Fortune>)
    requires StablySortedFrom(stored + [Additional], r)
    ensures r == ListFortunes(stored)
  {
    StableSortUnique(r, ListFortunes(stored));
  }
}
