/**
 * The tracker's `std::multimap<nsecs_t, int32_t>` from event time to input event id,
 * as a sequence kept in non-decreasing event-time order. Entries with equal times keep
 * their insertion order, as a multimap does.
 */
module EventTimes {

  datatype Entry = Entry(eventTime: int, id: int)

  ghost predicate Sorted(s: seq<Entry>) {
    forall i, j :: 0 <= i < j < |s| ==> s[i].eventTime <= s[j].eventTime
  }

  /** The ids stored as values, with their multiplicities. */
  function IdsOf(s: seq<Entry>): multiset<int> {
    if s == [] then multiset{} else multiset{s[0].id} + IdsOf(s[1..])
  }

  lemma {:induction false} IdsOfConcat(a: seq<Entry>, b: seq<Entry>)
    ensures IdsOf(a + b) == IdsOf(a) + IdsOf(b)
  {
    if a == [] {
      assert a + b == b;
    } else {
      assert (a + b)[1..] == a[1..] + b;
      IdsOfConcat(a[1..], b);
    }
  }

  /** An entry's id is among the stored ids. */
  lemma {:induction false} IdsOfMember(s: seq<Entry>, e: Entry)
    requires e in s
    ensures e.id in IdsOf(s)
  {
    if s[0] != e {
      IdsOfMember(s[1..], e);
    }
  }

  /** The position `std::multimap::emplace` inserts at: after every entry whose time is
      not later than `time`, before the first later one. */
  function UpperBound(s: seq<Entry>, time: int): (k: nat)
    ensures k <= |s|
    ensures forall i :: 0 <= i < k ==> s[i].eventTime <= time
    ensures k < |s| ==> s[k].eventTime > time
  {
    if s == [] || s[0].eventTime > time then 0 else 1 + UpperBound(s[1..], time)
  }

  /** `mEventTimes.emplace(eventTime, id)`. */
  function Emplace(s: seq<Entry>, e: Entry): (r: seq<Entry>)
    ensures |r| == |s| + 1
    ensures multiset(r) == multiset(s) + multiset{e}
    ensures IdsOf(r) == IdsOf(s) + multiset{e.id}
    ensures Sorted(s) ==> Sorted(r)
  {
    var k := UpperBound(s, e.eventTime);
    EmplaceIds(s, e, k);
    EmplaceSorted(s, e, k);
    s[..k] + [e] + s[k..]
  }

  lemma EmplaceIds(s: seq<Entry>, e: Entry, k: nat)
    requires k <= |s|
    ensures multiset(s[..k] + [e] + s[k..]) == multiset(s) + multiset{e}
    ensures IdsOf(s[..k] + [e] + s[k..]) == IdsOf(s) + multiset{e.id}
  {
    var a, b := s[..k], s[k..];
    assert s == a + b;
    assert multiset(a + [e] + b) == multiset(a) + multiset{e} + multiset(b);
    IdsOfInsert(a, e, b);
  }

  lemma IdsOfInsert(a: seq<Entry>, e: Entry, b: seq<Entry>)
    ensures IdsOf(a + [e] + b) == IdsOf(a + b) + multiset{e.id}
  {
    assert IdsOf([e]) == multiset{e.id} by {
      assert [e][1..] == [];
    }
    calc {
      IdsOf(a + [e] + b);
      { IdsOfConcat(a + [e], b); }
      IdsOf(a + [e]) + IdsOf(b);
      { IdsOfConcat(a, [e]); }
      IdsOf(a) + multiset{e.id} + IdsOf(b);
      { IdsOfConcat(a, b); }
      IdsOf(a + b) + multiset{e.id};
    }
  }

  lemma EmplaceSorted(s: seq<Entry>, e: Entry, k: nat)
    requires k == UpperBound(s, e.eventTime)
    ensures Sorted(s) ==> Sorted(s[..k] + [e] + s[k..])
  {
    if !Sorted(s) { return; }
    var r := s[..k] + [e] + s[k..];
    forall i, j | 0 <= i < j < |r|
      ensures r[i].eventTime <= r[j].eventTime
    {
      if j < k {
        assert r[i] == s[i] && r[j] == s[j];
      } else if j == k {
        assert r[i] == s[i];
      } else if i < k {
        assert r[i] == s[i] && r[j] == s[j - 1];
      } else if i == k {
        assert r[j] == s[j - 1];
        assert s[k].eventTime > e.eventTime;
        assert k == j - 1 || s[k].eventTime <= s[j - 1].eventTime;
      } else {
        assert r[i] == s[i - 1] && r[j] == s[j - 1];
      }
    }
  }

  /** `eraseByValue(mEventTimes, id)`: every entry holding `v` goes and every other entry
      stays. */
  function EraseByValue(s: seq<Entry>, v: int): (r: seq<Entry>)
    ensures forall e :: e in r <==> e in s && e.id != v
    ensures forall e: Entry :: e.id != v ==> multiset(r)[e] == multiset(s)[e]
    ensures forall e: Entry :: e.id == v ==> multiset(r)[e] == 0
  {
    if s == [] then []
    else
      assert s == [s[0]] + s[1..];
      var rest := EraseByValue(s[1..], v);
      if s[0].id == v then rest else [s[0]] + rest
  }

  /** Erasing by value drops exactly that id from the stored ids. */
  lemma {:induction false} EraseByValueIds(s: seq<Entry>, v: int)
    ensures IdsOf(EraseByValue(s, v)) == IdsOf(s)[v := 0]
  {
    if s != [] {
      EraseByValueIds(s[1..], v);
      var rest := EraseByValue(s[1..], v);
      assert IdsOf(s) == multiset{s[0].id} + IdsOf(s[1..]);
      if s[0].id != v {
        assert ([s[0]] + rest)[1..] == rest;
      }
    }
  }

  /** Erasing a value no entry holds changes nothing. */
  lemma {:induction false} EraseByValueAbsent(s: seq<Entry>, v: int)
    requires v !in IdsOf(s)
    ensures EraseByValue(s, v) == s
  {
    if s != [] {
      assert IdsOf(s) == multiset{s[0].id} + IdsOf(s[1..]);
      EraseByValueAbsent(s[1..], v);
      assert s == [s[0]] + s[1..];
    }
  }

  /** `r` is `s` with some entries left out, the others in their order. */
  ghost predicate IsSubsequence(r: seq<Entry>, s: seq<Entry>)
    decreases |s|
  {
    r == [] || (s != [] && if r[0] == s[0] then IsSubsequence(r[1..], s[1..]) else IsSubsequence(r, s[1..]))
  }

  /** The entries that survive an erase keep their relative order, so entries with equal
      times stay in insertion order. */
  lemma {:induction false} EraseByValueKeepsRelativeOrder(s: seq<Entry>, v: int)
    ensures IsSubsequence(EraseByValue(s, v), s)
  {
    if s != [] {
      var rest := EraseByValue(s[1..], v);
      EraseByValueKeepsRelativeOrder(s[1..], v);
      if s[0].id == v {
        assert rest != [] ==> rest[0] in rest && rest[0] != s[0];
      } else {
        assert ([s[0]] + rest)[1..] == rest;
      }
    }
  }

  /** Erasing by value keeps the time order. */
  lemma {:induction false} EraseByValueKeepsOrder(s: seq<Entry>, v: int)
    requires Sorted(s)
    ensures Sorted(EraseByValue(s, v))
  {
    if s != [] {
      assert Sorted(s[1..]);
      EraseByValueKeepsOrder(s[1..], v);
      if s[0].id != v {
        EraseByValueSorted(s, EraseByValue(s[1..], v));
      }
    }
  }

  lemma EraseByValueSorted(s: seq<Entry>, rest: seq<Entry>)
    requires s != []
    requires forall e :: e in rest ==> e in s[1..]
    requires Sorted(s) && Sorted(rest)
    ensures Sorted([s[0]] + rest)
  {
    var r := [s[0]] + rest;
    forall i, j | 0 <= i < j < |r|
      ensures r[i].eventTime <= r[j].eventTime
    {
      if i == 0 {
        assert r[j] in s[1..];
      } else {
        assert r[i] == rest[i - 1] && r[j] == rest[j - 1];
      }
    }
  }
}
