/**
 * The "Recent predictions" log (frontend/src/App.jsx:155-161): each successful prediction
 * becomes an entry that is put in front of the log, which then keeps its first five entries.
 */
module PredictionHistory {
  import opened Wrappers

  /** One completed prediction; the timestamp is an opaque ISO string supplied by the caller. */
  datatype Entry = Entry(prediction: string, confidence: Option<real>, timestamp: string)

  const HistoryLimit: nat := 5

  function Min(a: int, b: int): (m: int) { if a <= b then a else b }

  /** `[entry, ...prev].slice(0, 5)`. */
  function PushHistory(entry: Entry, h: seq<Entry>): (r: seq<Entry>)
    ensures |r| == Min(HistoryLimit, |h| + 1)
    ensures r[0] == entry
    ensures r[1..] <= h
  {
    ([entry] + h)[..Min(HistoryLimit, |h| + 1)]
  }

  function Reverse(s: seq<Entry>): (r: seq<Entry>)
    ensures |r| == |s|
  {
    if s == [] then [] else Reverse(s[1..]) + [s[0]]
  }

  /** The log after the predictions in `entries` succeed one after another, oldest first. */
  function Replay(h: seq<Entry>, entries: seq<Entry>): (r: seq<Entry>)
    ensures |h| <= HistoryLimit ==> |r| <= HistoryLimit
    ensures entries != [] ==> |r| > 0 && r[0] == entries[|entries| - 1]
    ensures entries == [] ==> r == h
  {
    if entries == [] then h
    else PushHistory(entries[|entries| - 1], Replay(h, entries[..|entries| - 1]))
  }

  /** Putting one more entry in front of a log that already holds `x` truncated. */
  lemma {:induction false} PushTruncated(e: Entry, x: seq<Entry>, m: nat)
    requires m == Min(HistoryLimit, |x|)
    ensures PushHistory(e, x[..m]) == ([e] + x)[..Min(HistoryLimit, |x| + 1)]
  {
    var k := Min(HistoryLimit, |x| + 1);
    assert Min(HistoryLimit, m + 1) == k;
    forall i | 0 <= i < k
      ensures ([e] + x[..m])[..k][i] == ([e] + x)[..k][i]
    {
      if i > 0 { assert ([e] + x[..m])[i] == x[i - 1]; }
    }
  }

  /** The log is the submitted entries, newest first, in front of the old log, cut to five. */
  lemma {:induction false} ReplayNewestFirst(h: seq<Entry>, entries: seq<Entry>)
    requires |h| <= HistoryLimit
    ensures Replay(h, entries) == (Reverse(entries) + h)[..Min(HistoryLimit, |entries| + |h|)]
  {
    if entries == [] {
      assert Reverse(entries) + h == h;
    } else {
      var n := |entries|;
      var init, last := entries[..n - 1], entries[n - 1];
      ReplayNewestFirst(h, init);
      ReverseSnoc(init, last);
      assert init + [last] == entries;
      var x := Reverse(init) + h;
      PushTruncated(last, x, Min(HistoryLimit, |init| + |h|));
      assert [last] + x == Reverse(entries) + h;
    }
  }

  lemma {:induction false} ReverseSnoc(s: seq<Entry>, e: Entry)
    ensures Reverse(s + [e]) == [e] + Reverse(s)
  {
    if s == [] {
      assert s + [e] == [e];
    } else {
      assert (s + [e])[1..] == s[1..] + [e];
      ReverseSnoc(s[1..], e);
    }
  }

  /** Starting from an empty log, n successes leave the last min(n, 5) entries, newest first. */
  lemma LastFiveNewestFirst(entries: seq<Entry>)
    ensures |Replay([], entries)| == Min(HistoryLimit, |entries|)
    ensures forall i :: 0 <= i < |Replay([], entries)| ==>
      Replay([], entries)[i] == entries[|entries| - 1 - i]
  {
    ReplayNewestFirst([], entries);
    assert Reverse(entries) + [] == Reverse(entries);
    forall i | 0 <= i < |entries| ensures Reverse(entries)[i] == entries[|entries| - 1 - i] {
      ReverseAt(entries, i);
    }
  }

  lemma {:induction false} ReverseAt(s: seq<Entry>, i: nat)
    requires i < |s|
    ensures Reverse(s)[i] == s[|s| - 1 - i]
  {
    if i < |s| - 1 {
      ReverseAt(s[1..], i);
    }
  }

  /** Six successes from an empty log: five entries, the sixth first and the second last. */
  lemma SixSubmissions(e1: Entry, e2: Entry, e3: Entry, e4: Entry, e5: Entry, e6: Entry)
    ensures Replay([], [e1, e2, e3, e4, e5, e6]) == [e6, e5, e4, e3, e2]
  {
    var es := [e1, e2, e3, e4, e5, e6];
    LastFiveNewestFirst(es);
    var r := Replay([], es);
    assert r[0] == e6 && r[1] == e5 && r[2] == e4 && r[3] == e3 && r[4] == e2;
  }
}
