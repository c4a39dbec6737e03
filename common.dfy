/** Small value types and the JavaScript built-ins the core relies on:
    optional values, ASCII `toLowerCase`, `String.prototype.includes`,
    the "blank after trim" test and the bounds `Array.prototype.slice` uses. */
module Common {

  /** A value that may be absent (`undefined` or `null` in the source). */
  datatype Option<+T> = None | Some(value: T) {
    function GetOr(default: T): T {
      match this
      case Some(v) => v
      case None => default
    }
  }

  /** `c.toLowerCase()` on one character; only ASCII letters are folded. */
  function LowerChar(c: char): char {
    if 'A' <= c <= 'Z' then (c as int + 32) as char else c
  }

  /** `s.toLowerCase()`, ASCII only. */
  function ToLower(s: string): (r: string)
    ensures |r| == |s|
    ensures forall i :: 0 <= i < |s| ==> r[i] == LowerChar(s[i])
    ensures forall i :: 0 <= i < |r| ==> !('A' <= r[i] <= 'Z')
    ensures forall i :: 0 <= i < |s| && !('A' <= s[i] <= 'Z') ==> r[i] == s[i]
  {
    seq(|s|, i requires 0 <= i < |s| => LowerChar(s[i]))
  }

  /** Lower-casing twice is lower-casing once. */
  lemma ToLowerIdempotent(s: string)
    ensures ToLower(ToLower(s)) == ToLower(s)
  {
  }

  /** `sub` occurs in `s` starting at position `i`. */
  predicate OccursAt(s: string, sub: string, i: nat) {
    i + |sub| <= |s| && s[i..i + |sub|] == sub
  }

  /** `s.includes(sub)`. */
  predicate Contains(s: string, sub: string)
    ensures Contains(s, sub) ==> |sub| <= |s|
  {
    exists i: nat :: i <= |s| && OccursAt(s, sub, i)
  }

  /** Every string includes the empty string. */
  lemma ContainsEmpty(s: string)
    ensures Contains(s, "")
  {
    assert OccursAt(s, "", 0);
  }

  /** The characters `String.prototype.trim` strips, restricted to ASCII
      white space plus the no-break space and the byte-order mark. */
  predicate IsJsSpace(c: char) {
    c == ' ' || c == '\t' || c == '\n' || c == '\r' || c == '\U{000B}' || c == '\U{000C}'
    || c == '\U{00A0}' || c == '\U{FEFF}'
  }

  /** `!s.trim()`: nothing but white space is left after trimming. */
  predicate IsBlank(s: string)
    ensures |s| == 0 ==> IsBlank(s)
  {
    forall i :: 0 <= i < |s| ==> IsJsSpace(s[i])
  }

  /** The end index that `xs.slice(0, end)` actually uses, for an integer
      `end` (a negative end counts back from the length). */
  function SliceEnd(len: nat, end: int): (r: nat)
    ensures r <= len
    ensures end >= 0 ==> r == if end < len then end else len
    ensures end < 0 ==> r == if len + end > 0 then len + end else 0
  {
    if end >= len then len
    else if end >= 0 then end
    else if len + end > 0 then len + end
    else 0
  }

  /** The last `n` elements of `xs`, newest (last) first: what an index
      scan with `.order("desc").take(n)` returns. */
  function NewestFirst<T>(xs: seq<T>, n: nat): (r: seq<T>)
    ensures |r| == if n < |xs| then n else |xs|
    ensures forall i :: 0 <= i < |r| ==> r[i] == xs[|xs| - 1 - i]
  {
    var k := if n < |xs| then n else |xs|;
    seq(k, i requires 0 <= i < k => xs[|xs| - 1 - i])
  }

  /** `r` keeps some elements of `s`, in the order `s` has them. */
  predicate IsSublist<T(==)>(r: seq<T>, s: seq<T>)
    decreases |s|
  {
    || |r| == 0
    || (&& |s| > 0
        && (|| (r[|r| - 1] == s[|s| - 1] && IsSublist(r[..|r| - 1], s[..|s| - 1]))
            || IsSublist(r, s[..|s| - 1])))
  }

  /** A sublist is never longer than the list it comes from. */
  lemma {:induction false} SublistIsShorter<T>(r: seq<T>, s: seq<T>)
    requires IsSublist(r, s)
    ensures |r| <= |s|
    decreases |s|
  {
    if |r| > 0 {
      if r[|r| - 1] == s[|s| - 1] && IsSublist(r[..|r| - 1], s[..|s| - 1]) {
        SublistIsShorter(r[..|r| - 1], s[..|s| - 1]);
      } else {
        SublistIsShorter(r, s[..|s| - 1]);
      }
    }
  }

  lemma {:induction false} SublistReflexive<T>(s: seq<T>)
    ensures IsSublist(s, s)
    decreases |s|
  {
    if |s| > 0 {
      SublistReflexive(s[..|s| - 1]);
    }
  }

  /** `s.filter(keep)`: the elements `keep` accepts, each as often as it
      occurs in `s`, in their original order. */
  function Filter<T(!new)>(s: seq<T>, keep: T -> bool): (r: seq<T>)
    ensures IsSublist(r, s)
    ensures forall x :: multiset(r)[x] == if keep(x) then multiset(s)[x] else 0
    ensures forall x :: x in r <==> x in s && keep(x)
  {
    if |s| == 0 then []
    else
      var init := Filter(s[..|s| - 1], keep);
      var last := s[|s| - 1];
      assert s == s[..|s| - 1] + [last];
      if keep(last) then
        var r := init + [last];
        assert r[..|r| - 1] == init;
        r
      else init
  }

  /** `for (const k of keys) for (const x of part(k)) out.push(x)`: the parts
      of the keys one after another. */
  function Gather<K, T>(keys: seq<K>, part: K -> seq<T>): seq<T> {
    if |keys| == 0 then []
    else Gather(keys[..|keys| - 1], part) + part(keys[|keys| - 1])
  }

  /** Every gathered element comes from the part of some key. */
  lemma {:induction false} GatherSound<K, T>(keys: seq<K>, part: K -> seq<T>, x: T)
    requires x in Gather(keys, part)
    ensures exists k :: 0 <= k < |keys| && x in part(keys[k])
  {
    var init := keys[..|keys| - 1];
    if x in Gather(init, part) {
      GatherSound(init, part, x);
      var k :| 0 <= k < |init| && x in part(init[k]);
      assert keys[k] == init[k];
    }
  }

  /** Every element of every key's part is gathered. */
  lemma {:induction false} GatherComplete<K, T>(keys: seq<K>, part: K -> seq<T>, k: nat, x: T)
    requires k < |keys| && x in part(keys[k])
    ensures x in Gather(keys, part)
  {
    var init := keys[..|keys| - 1];
    if k < |init| {
      assert keys[k] == init[k];
      GatherComplete(init, part, k, x);
    }
  }

  /** Parts of at most `n` elements gather into at most `n` per key. */
  lemma {:induction false} GatherBound<K, T>(keys: seq<K>, part: K -> seq<T>, n: nat)
    requires forall k :: 0 <= k < |keys| ==> |part(keys[k])| <= n
    ensures |Gather(keys, part)| <= n * |keys|
  {
    if |keys| > 0 {
      var init := keys[..|keys| - 1];
      assert forall k :: 0 <= k < |init| ==> init[k] == keys[k];
      GatherBound(init, part, n);
    }
  }
}
