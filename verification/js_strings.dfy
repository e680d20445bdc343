/** Option, for JavaScript values that may come out `undefined`. */
module Options {
  datatype Option<+T> = None | Some(value: T)
}

/**
 * The part of JavaScript's string semantics the service relies on: request
 * fields that may be missing, template-literal interpolation,
 * `String.prototype.indexOf`, `replace` with a string pattern, `split` with a
 * string separator and `Array.prototype.join`.
 */
module JsStrings {
  import opened Options

  /** A field of a parsed JSON request body: missing, `null`, or a string. */
  datatype JsValue = Absent | Null | Str(s: string)

  /** JavaScript truthiness of such a field: only a non-empty string is truthy. */
  predicate Truthy(v: JsValue) {
    v.Str? && v.s != ""
  }

  /** What `${v}` puts into a template literal. */
  function Interpolate(v: JsValue): (r: string)
    ensures v.Str? ==> r == v.s
    ensures v == Absent ==> r == "undefined"
    ensures v == Null ==> r == "null"
  {
    match v
    case Absent => "undefined"
    case Null => "null"
    case Str(s) => s
  }

  /** `pat` occurs in `s` starting at index `i`. */
  predicate OccursAt(s: string, pat: string, i: nat) {
    i + |pat| <= |s| && s[i..i + |pat|] == pat
  }

  predicate Contains(s: string, pat: string) {
    exists i: nat | i <= |s| :: OccursAt(s, pat, i)
  }

  lemma OccursAtTail(s: string, pat: string, j: nat)
    requires |s| > 0
    ensures OccursAt(s, pat, j + 1) <==> OccursAt(s[1..], pat, j)
  {
    if j + 1 + |pat| <= |s| {
      assert s[j + 1..j + 1 + |pat|] == s[1..][j..j + |pat|];
    }
  }

  /** `s.indexOf(pat)`: the first index where `pat` occurs, `None` for -1. */
  function IndexOf(s: string, pat: string): (r: Option<nat>)
    ensures r.Some? ==> OccursAt(s, pat, r.value)
    ensures r.Some? ==> forall j: nat :: j < r.value ==> !OccursAt(s, pat, j)
    ensures r.None? ==> forall j: nat :: !OccursAt(s, pat, j)
    decreases |s|
  {
    if |s| < |pat| then None
    else if s[..|pat|] == pat then Some(0)
    else
      var rest := IndexOf(s[1..], pat);
      assert !OccursAt(s, pat, 0);
      forall j: nat ensures OccursAt(s, pat, j + 1) <==> OccursAt(s[1..], pat, j) {
        OccursAtTail(s, pat, j);
      }
      assert forall j: nat :: j > 0 ==> OccursAt(s, pat, j) == OccursAt(s[1..], pat, j - 1);
      match rest
      case None => None
      case Some(i) => Some(i + 1)
  }

  lemma IndexOfNoneIffAbsent(s: string, pat: string)
    ensures IndexOf(s, pat).None? <==> !Contains(s, pat)
  {
    if IndexOf(s, pat).Some? {
      assert OccursAt(s, pat, IndexOf(s, pat).value);
    }
  }

  /** The first occurrence is the one with none before it. */
  lemma IndexOfFirst(s: string, pat: string, i: nat)
    requires OccursAt(s, pat, i)
    requires forall j: nat :: j < i ==> !OccursAt(s, pat, j)
    ensures IndexOf(s, pat) == Some(i)
  {
  }

  /** For a one-character pattern, an occurrence is just a matching character. */
  lemma OccursAtChar(s: string, c: char, j: nat)
    ensures OccursAt(s, [c], j) <==> j < |s| && s[j] == c
  {
    if j < |s| {
      assert s[j..j + 1] == [s[j]];
    }
  }

  /** The first occurrence of `c` is the first index holding `c`. */
  lemma {:induction false} IndexOfChar(a: string, c: char, b: string)
    requires c !in a
    ensures IndexOf(a + [c] + b, [c]) == Some(|a|)
  {
    var s := a + [c] + b;
    OccursAtChar(s, c, |a|);
    forall j: nat | j < |a| ensures !OccursAt(s, [c], j) {
      OccursAtChar(s, c, j);
      assert s[j] == a[j];
    }
  }

  lemma {:induction false} IndexOfCharAbsent(s: string, c: char)
    requires c !in s
    ensures IndexOf(s, [c]) == None
  {
    var r := IndexOf(s, [c]);
    if r.Some? {
      OccursAtChar(s, c, r.value);
    }
  }

  /** A text laid out as fixed, b, fixed, d, fixed holds b and d. */
  lemma CarriesTwo(a: string, b: string, c: string, d: string, e: string)
    ensures var s := a + b + c + d + e;
            Contains(s, b) && Contains(s, d)
  {
    var s := a + b + c + d + e;
    assert s[|a|..|a| + |b|] == b;
    assert OccursAt(s, b, |a|);
    var i := |a + b + c|;
    assert s[i..i + |d|] == d;
    assert OccursAt(s, d, i);
  }

  /** A text laid out as fixed, b, fixed, d, fixed, f, fixed holds b, d and f. */
  lemma CarriesSlots(a: string, b: string, c: string, d: string, e: string, f: string, g: string)
    ensures var s := a + b + c + d + e + f + g;
            Contains(s, b) && Contains(s, d) && Contains(s, f) && s[..|a|] == a
  {
    var s := a + b + c + d + e + f + g;
    assert s[..|a|] == a;
    assert s[|a|..|a| + |b|] == b;
    assert OccursAt(s, b, |a|);
    var i := |a + b + c|;
    assert s[i..i + |d|] == d;
    assert OccursAt(s, d, i);
    var k := |a + b + c + d + e|;
    assert s[k..k + |f|] == f;
    assert OccursAt(s, f, k);
  }

  /**
   * `s.replace(pat, rep)` with a string pattern: only the FIRST occurrence is
   * replaced, and `s` comes back unchanged when `pat` does not occur.
   */
  function ReplaceFirst(s: string, pat: string, rep: string): (r: string)
    ensures IndexOf(s, pat).None? ==> r == s
    ensures |pat| == |rep| ==> |r| == |s|
  {
    match IndexOf(s, pat)
    case None => s
    case Some(i) => s[..i] + rep + s[i + |pat|..]
  }

  /** Text without the character is left untouched. */
  lemma ReplaceFirstCharAbsent(s: string, c: char, d: char)
    requires c !in s
    ensures ReplaceFirst(s, [c], [d]) == s
  {
    IndexOfCharAbsent(s, c);
  }

  /** Replacing a character that first occurs after `a` swaps exactly that one. */
  lemma ReplaceFirstCharAfter(a: string, c: char, d: char, b: string)
    requires c !in a
    ensures ReplaceFirst(a + [c] + b, [c], [d]) == a + [d] + b
  {
    var s := a + [c] + b;
    IndexOfChar(a, c, b);
    assert s[..|a|] == a;
    assert s[|a| + 1..] == b;
  }

  /** `parts.join(sep)`. */
  function Join(parts: seq<string>, sep: string): string
  {
    if |parts| == 0 then ""
    else if |parts| == 1 then parts[0]
    else parts[0] + sep + Join(parts[1..], sep)
  }

  /** `s.split(sep)` with a non-empty string separator. */
  function Split(s: string, sep: string): (parts: seq<string>)
    requires |sep| > 0
    ensures |parts| >= 1
    decreases |s|
  {
    match IndexOf(s, sep)
    case None => [s]
    case Some(i) => [s[..i]] + Split(s[i + |sep|..], sep)
  }

  /** No piece of a split holds the separator. */
  lemma {:induction false} SplitPiecesFree(s: string, sep: string)
    requires |sep| > 0
    ensures forall k :: 0 <= k < |Split(s, sep)| ==> !Contains(Split(s, sep)[k], sep)
    decreases |s|
  {
    match IndexOf(s, sep)
    case None =>
      IndexOfNoneIffAbsent(s, sep);
    case Some(i) =>
      var rest := s[i + |sep|..];
      SplitPiecesFree(rest, sep);
      NoOccurrenceInPrefix(s, sep, i);
      SplitStep(s, sep, i);
  }

  lemma NoOccurrenceInPrefix(s: string, pat: string, i: nat)
    requires |pat| > 0 && i <= |s|
    requires forall j: nat :: j < i ==> !OccursAt(s, pat, j)
    ensures !Contains(s[..i], pat)
  {
    forall j: nat | OccursAt(s[..i], pat, j) ensures false {
      assert s[..i][j..j + |pat|] == s[j..j + |pat|];
      assert OccursAt(s, pat, j);
    }
  }

  /** `s.split(sep)[n]`: `None` stands for `undefined` past the last piece. */
  function Piece(s: string, sep: string, n: nat): (r: Option<string>)
    requires |sep| > 0
    ensures r.Some? <==> n < |Split(s, sep)|
  {
    var parts := Split(s, sep);
    if n < |parts| then Some(parts[n]) else None
  }

  /** One step of a split: the text before the first separator, then the split of the rest. */
  lemma SplitStep(s: string, sep: string, i: nat)
    requires |sep| > 0 && IndexOf(s, sep) == Some(i)
    ensures Split(s, sep) == [s[..i]] + Split(s[i + |sep|..], sep)
  {
  }

  /** Joining a head onto a non-empty tail puts one separator between them. */
  lemma JoinCons(head: string, tail: seq<string>, sep: string)
    requires |tail| > 0
    ensures Join([head] + tail, sep) == head + sep + Join(tail, sep)
  {
    assert ([head] + tail)[1..] == tail;
  }

  /** Splitting and joining with the same separator gives the text back. */
  lemma {:induction false} JoinSplit(s: string, sep: string)
    requires |sep| > 0
    ensures Join(Split(s, sep), sep) == s
    decreases |s|
  {
    match IndexOf(s, sep)
    case None =>
    case Some(i) =>
      var rest := s[i + |sep|..];
      var parts := Split(rest, sep);
      JoinSplit(rest, sep);
      SplitStep(s, sep, i);
      JoinCons(s[..i], parts, sep);
      assert s[i..i + |sep|] == sep;
      calc {
        Join(Split(s, sep), sep);
        Join([s[..i]] + parts, sep);
        s[..i] + sep + Join(parts, sep);
        s[..i] + sep + rest;
        { assert s == s[..i] + s[i..i + |sep|] + rest; }
        s;
      }
  }

  /** The second piece of a split: what follows the first separator, up to the next one. */
  lemma SecondPiece(s: string, sep: string, i: nat)
    requires |sep| > 0
    requires IndexOf(s, sep) == Some(i)
    ensures Piece(s, sep, 1) == Some(Split(s[i + |sep|..], sep)[0])
  {
  }

  /** A text holding no separator is its own single piece. */
  lemma SplitWithout(s: string, sep: string)
    requires |sep| > 0
    requires !Contains(s, sep)
    ensures Split(s, sep) == [s]
  {
    IndexOfNoneIffAbsent(s, sep);
  }

  /**
   * The first piece of a split is the text up to the first separator: a
   * prefix holding no separator, followed by one unless it is the whole text.
   */
  lemma FirstPiece(s: string, sep: string)
    requires |sep| > 0
    ensures var p := Split(s, sep)[0];
            && |p| <= |s| && s[..|p|] == p
            && (|p| < |s| ==> OccursAt(s, sep, |p|))
            && forall j: nat :: j < |p| ==> !OccursAt(s, sep, j)
  {
    match IndexOf(s, sep)
    case None =>
    case Some(i) =>
  }
}
