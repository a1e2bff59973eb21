/**
 * Values and text helpers shared by every component: optional values, results
 * of operations that can fail, and the handful of Python string operations the
 * ingestion code relies on (`str.strip`, `str.split()`, `str.split(sep)`,
 * `sep.join`, `str.replace`), written out character by character.
 */
module Common {

  datatype Option<+T> = None | Some(value: T)

  /** The value an operation returns, or the exception it raises. */
  datatype Result<+T, +E> = Ok(value: T) | Err(error: E)

  /** The text of an XML element or a JSON string field: `None` stands for Python's `None`. */
  type Text = Option<string>

  /**
   * A field value in a record dictionary: one text, or a list of texts
   * (a repeated XML element, a list of set specs).
   */
  datatype Value = Scalar(text: Text) | Many(texts: seq<Text>)

  /** Python truthiness of an optional string: `None` and `''` are falsy. */
  predicate Truthy(t: Text) {
    t.Some? && t.value != ""
  }

  /** Python truthiness of a field value: `None`, `''` and `[]` are falsy. */
  predicate TruthyValue(v: Value) {
    match v
    case Scalar(t) => Truthy(t)
    case Many(ts) => ts != []
  }

  /** `str.isspace()` for one character: the code points Python treats as whitespace. */
  predicate IsSpace(c: char) {
    var n := c as int;
    (9 <= n <= 13) || (28 <= n <= 32) || n == 0x85 || n == 0xA0 || n == 0x1680
    || (0x2000 <= n <= 0x200A) || n == 0x2028 || n == 0x2029 || n == 0x202F
    || n == 0x205F || n == 0x3000
  }

  predicate NoSpace(s: string) {
    forall i :: 0 <= i < |s| ==> !IsSpace(s[i])
  }

  /** A token as `str.split()` produces it: non-empty, without whitespace. */
  predicate IsWord(s: string) {
    s != [] && NoSpace(s)
  }

  predicate AllWords(ws: seq<string>) {
    forall i :: 0 <= i < |ws| ==> IsWord(ws[i])
  }

  // ---------------------------------------------------------------- strip

  /** `str.lstrip()`: drops the leading whitespace, and no more. */
  function StripLeft(s: string): (r: string)
    ensures |r| <= |s|
    ensures r == [] || !IsSpace(r[0])
  {
    if s != [] && IsSpace(s[0]) then StripLeft(s[1..]) else s
  }

  /** `str.rstrip()`: drops the trailing whitespace, and no more. */
  function StripRight(s: string): (r: string)
    ensures |r| <= |s| && r == s[..|r|]
    ensures r == [] || !IsSpace(r[|r| - 1])
  {
    if s != [] && IsSpace(s[|s| - 1]) then StripRight(s[..|s| - 1]) else s
  }

  /** `lstrip` keeps a suffix and drops only whitespace. */
  lemma {:induction false} StripLeftDrops(s: string)
    ensures var r := StripLeft(s);
      r == s[|s| - |r|..] && forall i :: 0 <= i < |s| - |r| ==> IsSpace(s[i])
    decreases |s|
  {
    if s != [] && IsSpace(s[0]) {
      StripLeftDrops(s[1..]);
    }
  }

  /** `rstrip` drops only whitespace. */
  lemma {:induction false} StripRightDrops(s: string)
    ensures var r := StripRight(s);
      forall i :: |r| <= i < |s| ==> IsSpace(s[i])
    decreases |s|
  {
    if s != [] && IsSpace(s[|s| - 1]) {
      StripRightDrops(s[..|s| - 1]);
    }
  }

  /** `str.strip()`. */
  function Strip(s: string): string {
    StripRight(StripLeft(s))
  }

  lemma StripOfUnpadded(s: string)
    requires s != [] && !IsSpace(s[0]) && !IsSpace(s[|s| - 1])
    ensures Strip(s) == s
  {
  }

  // ---------------------------------------------------------------- join

  /** `sep.join(parts)`. */
  function Join(parts: seq<string>, sep: string): string
  {
    if parts == [] then ""
    else if |parts| == 1 then parts[0]
    else parts[0] + sep + Join(parts[1..], sep)
  }

  lemma JoinSnoc(parts: seq<string>, p: string, sep: string)
    requires parts != []
    ensures Join(parts + [p], sep) == Join(parts, sep) + sep + p
  {
    if |parts| == 1 {
    } else {
      assert (parts + [p])[1..] == parts[1..] + [p];
      JoinSnoc(parts[1..], p, sep);
    }
  }

  // ---------------------------------------------------------------- split()

  /** Length of the leading run of non-whitespace characters. */
  function WordEnd(s: string): (k: nat)
    ensures k <= |s| && NoSpace(s[..k])
    ensures k < |s| ==> IsSpace(s[k])
  {
    if s == [] || IsSpace(s[0]) then 0
    else
      var k := 1 + WordEnd(s[1..]);
      assert s[..k] == [s[0]] + s[1..][..k - 1];
      k
  }

  /** `str.split()` with no separator: the maximal runs of non-whitespace. */
  function Words(s: string): (ws: seq<string>)
    ensures AllWords(ws)
    decreases |s|
  {
    var t := StripLeft(s);
    if t == [] then []
    else
      var k := WordEnd(t);
      assert k > 0 by { assert !IsSpace(t[0]); }
      var rest := Words(t[k..]);
      AllWordsCons(t[..k], rest);
      [t[..k]] + rest
  }

  lemma AllWordsCons(w: string, ws: seq<string>)
    requires IsWord(w) && AllWords(ws)
    ensures AllWords([w] + ws)
  {
    forall i | 0 <= i < |ws| + 1 ensures IsWord(([w] + ws)[i]) {
      if i > 0 { assert ([w] + ws)[i] == ws[i - 1]; }
    }
  }

  /** `str.split()` undoes `' '.join` on words. */
  lemma {:induction false} WordsOfJoin(ws: seq<string>)
    requires AllWords(ws)
    ensures Words(Join(ws, " ")) == ws
    decreases |ws|
  {
    if ws == [] {
    } else if |ws| == 1 {
      WordsCons(ws[0], "");
      assert ws[0] + "" == ws[0];
    } else {
      var rest := Join(ws[1..], " ");
      assert Join(ws, " ") == ws[0] + (" " + rest);
      WordsCons(ws[0], " " + rest);
      WordsSpace(rest);
      WordsOfJoin(ws[1..]);
    }
  }

  /** A word followed by whitespace (or nothing) is the first token. */
  lemma WordsCons(w: string, tail: string)
    requires IsWord(w)
    requires tail == [] || IsSpace(tail[0])
    ensures Words(w + tail) == [w] + Words(tail)
  {
    assert (w + tail)[0] == w[0];
    assert StripLeft(w + tail) == w + tail;
    WordEndPrefix(w, tail);
    assert (w + tail)[|w|..] == tail;
  }

  /** A leading space does not change the tokens. */
  lemma WordsSpace(r: string)
    ensures Words(" " + r) == Words(r)
  {
    assert (" " + r)[1..] == r;
    assert StripLeft(" " + r) == StripLeft(r);
  }

  lemma StripLeftWords(ws: seq<string>)
    requires AllWords(ws) && ws != []
    ensures StripLeft(Join(ws, " ")) == Join(ws, " ")
  {
    if |ws| > 1 {
      assert Join(ws, " ") == ws[0] + " " + Join(ws[1..], " ");
      assert Join(ws, " ")[0] == ws[0][0];
    }
  }

  lemma {:induction false} WordEndPrefix(w: string, tail: string)
    requires IsWord(w)
    requires tail == [] || IsSpace(tail[0])
    ensures WordEnd(w + tail) == |w| && (w + tail)[..|w|] == w
    decreases |w|
  {
    var s := w + tail;
    assert s[0] == w[0] && !IsSpace(w[0]);
    assert WordEnd(s) == 1 + WordEnd(s[1..]);
    if |w| == 1 {
      assert s[1..] == tail;
    } else {
      assert s[1..] == w[1..] + tail;
      assert IsWord(w[1..]) by {
        assert forall i :: 0 <= i < |w[1..]| ==> w[1..][i] == w[i + 1];
      }
      WordEndPrefix(w[1..], tail);
    }
  }

  // ---------------------------------------------------------------- split(sep)

  /** Index of the first `sep` in `s`, or `|s|` when there is none. */
  function IndexOf(s: string, sep: char): (k: nat)
    ensures k <= |s| && sep !in s[..k]
    ensures k < |s| ==> s[k] == sep
  {
    if s == [] || s[0] == sep then 0
    else
      var k := 1 + IndexOf(s[1..], sep);
      assert s[..k] == [s[0]] + s[1..][..k - 1];
      k
  }

  /** `s.split(sep)` for a one-character separator: keeps empty pieces, never returns `[]`. */
  function SplitOn(s: string, sep: char): (r: seq<string>)
    ensures |r| >= 1
    ensures forall i :: 0 <= i < |r| ==> sep !in r[i]
    ensures Join(r, [sep]) == s
    decreases |s|
  {
    var k := IndexOf(s, sep);
    if k == |s| then
      assert s[..k] == s;
      [s]
    else
      var rest := SplitOn(s[k + 1..], sep);
      assert s == s[..k] + [sep] + s[k + 1..];
      [s[..k]] + rest
  }

  /** `sep in s`. */
  predicate Contains(s: string, sep: char) {
    sep in s
  }

  /** `s.split(sep)[-1]`: the text after the last `sep`. */
  function LastPiece(s: string, sep: char): (r: string)
    ensures sep !in r
    ensures sep !in s ==> r == s
    ensures sep in s ==> exists p :: s == p + [sep] + r
  {
    var pieces := SplitOn(s, sep);
    var r := pieces[|pieces| - 1];
    if |pieces| == 1 then r
    else
      assert pieces == pieces[..|pieces| - 1] + [r];
      JoinSnoc(pieces[..|pieces| - 1], r, [sep]);
      r
  }

  /** `s.split(sep)` undoes `sep.join` on pieces free of `sep`. */
  lemma {:induction false} SplitOnJoin(ps: seq<string>, sep: char)
    requires ps != [] && forall i :: 0 <= i < |ps| ==> sep !in ps[i]
    ensures SplitOn(Join(ps, [sep]), sep) == ps
    decreases |ps|
  {
    var s := Join(ps, [sep]);
    if |ps| == 1 {
      assert s == ps[0];
      IndexOfAbsent(ps[0], sep);
      assert SplitOn(s, sep) == [s];
    } else {
      var rest := Join(ps[1..], [sep]);
      assert s == ps[0] + ([sep] + rest);
      IndexOfBefore(ps[0], [sep] + rest, sep);
      var k := IndexOf(s, sep);
      assert k == |ps[0]| < |s|;
      assert s[..k] == ps[0];
      assert s[k + 1..] == rest;
      SplitOnJoin(ps[1..], sep);
      assert SplitOn(s, sep) == [ps[0]] + SplitOn(rest, sep);
      assert ps == [ps[0]] + ps[1..];
    }
  }

  lemma IndexOfAbsent(s: string, sep: char)
    requires sep !in s
    ensures IndexOf(s, sep) == |s|
  {
    if s != [] {
      assert sep !in s[1..] by { assert forall c :: c in s[1..] ==> c in s; }
      IndexOfAbsent(s[1..], sep);
    }
  }

  lemma IndexOfBefore(p: string, tail: string, sep: char)
    requires sep !in p && tail != [] && tail[0] == sep
    ensures IndexOf(p + tail, sep) == |p|
  {
    if p != [] {
      assert (p + tail)[1..] == p[1..] + tail;
      assert sep !in p[1..] by { assert forall c :: c in p[1..] ==> c in p; }
      IndexOfBefore(p[1..], tail, sep);
    }
  }

  // ---------------------------------------------------------------- replace

  predicate StartsWith(s: string, p: string) {
    |p| <= |s| && s[..|p|] == p
  }

  /** `pat` occurs in `s` at position `i`. */
  predicate OccursAt(s: string, pat: string, i: int) {
    0 <= i <= |s| - |pat| && s[i..i + |pat|] == pat
  }

  /** `pat in s`. */
  ghost predicate Occurs(s: string, pat: string) {
    exists i :: OccursAt(s, pat, i)
  }

  /** `s.replace(pat, "")` for a non-empty pattern: non-overlapping, left to right. */
  function RemoveAll(s: string, pat: string): string
    requires pat != []
    decreases |s|
  {
    if s == [] then []
    else if StartsWith(s, pat) then RemoveAll(s[|pat|..], pat)
    else [s[0]] + RemoveAll(s[1..], pat)
  }

  /** Without an occurrence the replacement changes nothing. */
  lemma {:induction false} RemoveAllAbsent(s: string, pat: string)
    requires pat != [] && !Occurs(s, pat)
    ensures RemoveAll(s, pat) == s
    decreases |s|
  {
    if s != [] {
      assert !StartsWith(s, pat) by {
        if StartsWith(s, pat) { assert OccursAt(s, pat, 0); }
      }
      assert !Occurs(s[1..], pat) by {
        if Occurs(s[1..], pat) {
          var i :| OccursAt(s[1..], pat, i);
          assert s[1..][i..i + |pat|] == s[i + 1..i + 1 + |pat|];
          assert OccursAt(s, pat, i + 1);
        }
      }
      RemoveAllAbsent(s[1..], pat);
    }
  }

  // ---------------------------------------------------------------- sums

  /** The length at which a growing batch first meets `len(batch) >= batch_size`. */
  function Threshold(batchSize: int): nat {
    if batchSize < 1 then 1 else batchSize
  }

  function Sum(xs: seq<nat>): nat {
    if xs == [] then 0 else xs[0] + Sum(xs[1..])
  }

  lemma SumSnoc(xs: seq<nat>, x: nat)
    ensures Sum(xs + [x]) == Sum(xs) + x
  {
    if xs != [] {
      assert (xs + [x])[1..] == xs[1..] + [x];
      SumSnoc(xs[1..], x);
    }
  }

  /** `f(xs[0]) + ... + f(xs[n-1])`: the rows the first `n` items contribute, in order. */
  function FlatMap<A, B>(xs: seq<A>, f: A -> seq<B>, n: nat): seq<B>
    requires n <= |xs|
  {
    if n == 0 then [] else FlatMap(xs, f, n - 1) + f(xs[n - 1])
  }

  /** Every row of a flat map comes from one of the items. */
  lemma {:induction false} FlatMapSource<A, B>(xs: seq<A>, f: A -> seq<B>, n: nat, e: B) returns (i: nat)
    requires n <= |xs| && e in FlatMap(xs, f, n)
    ensures i < n && e in f(xs[i])
    decreases n
  {
    if e in FlatMap(xs, f, n - 1) {
      i := FlatMapSource(xs, f, n - 1, e);
    } else {
      i := n - 1;
    }
  }

  /** Every row of every item is in the flat map. */
  lemma {:induction false} FlatMapHas<A, B>(xs: seq<A>, f: A -> seq<B>, n: nat, i: nat, e: B)
    requires n <= |xs| && i < n && e in f(xs[i])
    ensures e in FlatMap(xs, f, n)
    decreases n
  {
    if i < n - 1 {
      FlatMapHas(xs, f, n - 1, i, e);
    }
  }

  /** The values `f` gives for the first `n` items, in order, skipping the items it gives nothing for. */
  function FilterMap<A, B>(xs: seq<A>, f: A -> Option<B>, n: nat): (r: seq<B>)
    requires n <= |xs|
    ensures |r| <= n
  {
    if n == 0 then []
    else
      var prev := FilterMap(xs, f, n - 1);
      match f(xs[n - 1])
      case Some(y) => prev + [y]
      case None => prev
  }

  /** Every value kept comes from one of the items. */
  lemma {:induction false} FilterMapSource<A, B>(xs: seq<A>, f: A -> Option<B>, n: nat, e: B) returns (i: nat)
    requires n <= |xs| && e in FilterMap(xs, f, n)
    ensures i < n && f(xs[i]) == Some(e)
    decreases n
  {
    if e in FilterMap(xs, f, n - 1) {
      i := FilterMapSource(xs, f, n - 1, e);
    } else {
      i := n - 1;
    }
  }

  /** The value of every item `f` accepts is kept. */
  lemma {:induction false} FilterMapHas<A, B>(xs: seq<A>, f: A -> Option<B>, n: nat, i: nat)
    requires n <= |xs| && i < n && f(xs[i]).Some?
    ensures f(xs[i]).value in FilterMap(xs, f, n)
    decreases n
  {
    if i < n - 1 {
      FilterMapHas(xs, f, n - 1, i);
    }
  }

  /** One more element: `FilterMap` grows by its image when there is one. */
  lemma FilterMapStep<A, B>(xs: seq<A>, f: A -> Option<B>, n: nat)
    requires n < |xs|
    ensures FilterMap(xs, f, n + 1)
         == if f(xs[n]).Some? then FilterMap(xs, f, n) + [f(xs[n]).value] else FilterMap(xs, f, n)
  {
  }

  /** When `f` accepts every item, nothing is dropped. */
  lemma {:induction false} FilterMapAll<A, B>(xs: seq<A>, f: A -> Option<B>, n: nat)
    requires n <= |xs| && forall i :: 0 <= i < n ==> f(xs[i]).Some?
    ensures |FilterMap(xs, f, n)| == n
    decreases n
  {
    if n > 0 {
      FilterMapAll(xs, f, n - 1);
    }
  }

  /** The sequences one after another. */
  function Concat<T>(xss: seq<seq<T>>): seq<T>
    decreases |xss|
  {
    if xss == [] then [] else Concat(xss[..|xss| - 1]) + xss[|xss| - 1]
  }

  lemma ConcatSnoc<T>(xss: seq<seq<T>>, xs: seq<T>)
    ensures Concat(xss + [xs]) == Concat(xss) + xs
  {
    assert (xss + [xs])[..|xss|] == xss;
  }
}
