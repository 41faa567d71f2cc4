// Bounded per-person histories, shared by the activity classifiers. Each keeps
// a map from person id to a list (or a deque with maxlen) of recent samples
// and cuts it back to its last n entries after appending.
module Histories {

  /**
   * The last n entries of s: `s[-n:]` after `len(s) > n`, and what a Python
   * deque(maxlen=n) holds after an append.
   */
  function KeepLast<T>(s: seq<T>, n: nat): (r: seq<T>)
    ensures |s| <= n ==> r == s
    ensures |s| > n ==> |r| == n
    ensures r == s[|s| - |r|..]
  {
    if |s| > n then s[|s| - n..] else s
  }

  /** The history stored for k, or the empty list for a person not seen yet. */
  function HistoryOf<T>(m: map<int, seq<T>>, k: int): seq<T> {
    if k in m then m[k] else []
  }

  /**
   * Appending to a history of at most n entries and keeping the last n keeps
   * the new entry last, keeps at most n entries, and drops at most the oldest.
   */
  lemma AppendKeepLast<T>(h: seq<T>, x: T, n: nat)
    requires |h| <= n && n > 0
    ensures var r := KeepLast(h + [x], n);
      && |r| <= n
      && r[|r| - 1] == x
      && (|h| < n ==> r == h + [x])
      && (|h| == n ==> r == h[1..] + [x])
  {
    var r := KeepLast(h + [x], n);
    if |h| == n {
      assert r == (h + [x])[1..];
      assert (h + [x])[1..] == h[1..] + [x];
    }
  }
}
