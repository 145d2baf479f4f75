/**
 * The JavaScript string operations the game's command handling relies on
 * (`trim`, `toLowerCase`, `split(' ')`, `join`, `indexOf`, `includes`),
 * written over `seq<char>`. Case mapping covers ASCII only.
 */
module Text {
  import opened Wrappers

  /** The white space of JavaScript's `trim` and of the regular-expression class `\s`. */
  predicate IsWhitespace(c: char) {
    || c == ' ' || c == '\t' || c == '\n' || c == '\r' || c == '\U{B}' || c == '\U{C}'
    || c == '\U{A0}' || c == '\U{1680}' || ('\U{2000}' <= c <= '\U{200A}')
    || c == '\U{2028}' || c == '\U{2029}' || c == '\U{202F}' || c == '\U{205F}'
    || c == '\U{3000}' || c == '\U{FEFF}'
  }

  /** The line terminators, which the regular-expression `.` does not match. */
  predicate IsLineTerminator(c: char) {
    c == '\n' || c == '\r' || c == '\U{2028}' || c == '\U{2029}'
  }

  predicate AllWhitespace(s: string) {
    forall i :: 0 <= i < |s| ==> IsWhitespace(s[i])
  }

  predicate NoWhitespace(s: string) {
    forall i :: 0 <= i < |s| ==> !IsWhitespace(s[i])
  }

  predicate IsUpper(c: char) { 'A' <= c <= 'Z' }

  predicate IsLower(c: char) { 'a' <= c <= 'z' }

  function LowerChar(c: char): (r: char)
    ensures !IsUpper(r)
    ensures IsUpper(c) ==> IsLower(r)
    ensures !IsUpper(c) ==> r == c
  {
    if IsUpper(c) then (c as int + 32) as char else c
  }

  function UpperChar(c: char): (r: char)
    ensures !IsLower(r)
    ensures IsLower(c) ==> IsUpper(r) && LowerChar(r) == c
    ensures !IsLower(c) ==> r == c
  {
    if IsLower(c) then (c as int - 32) as char else c
  }

  /** `toLowerCase`, restricted to ASCII letters. */
  function ToLower(s: string): (r: string)
    ensures |r| == |s|
    ensures forall i :: 0 <= i < |s| ==> r[i] == LowerChar(s[i])
  {
    if s == [] then [] else [LowerChar(s[0])] + ToLower(s[1..])
  }

  /** A string in which no letter is a capital. */
  predicate NoCapitals(s: string) {
    forall k :: 0 <= k < |s| ==> !IsUpper(s[k])
  }

  /** Lower-casing leaves a string without capitals as it is. */
  lemma ToLowerKeeps(s: string)
    requires NoCapitals(s)
    ensures ToLower(s) == s
  {
  }

  /** Lower-casing twice is lower-casing once. */
  lemma ToLowerTwice(s: string)
    ensures ToLower(ToLower(s)) == ToLower(s)
  {
    var once := ToLower(s);
    assert forall i :: 0 <= i < |s| ==> ToLower(once)[i] == LowerChar(once[i]) == once[i];
  }

  lemma {:induction false} ToLowerConcat(a: string, b: string)
    ensures ToLower(a + b) == ToLower(a) + ToLower(b)
  {
    if a != [] {
      assert (a + b)[1..] == a[1..] + b;
      ToLowerConcat(a[1..], b);
    }
  }

  /** `trimStart`. */
  function TrimStart(s: string): string {
    if s != [] && IsWhitespace(s[0]) then TrimStart(s[1..]) else s
  }

  /** `trimEnd`. */
  function TrimEnd(s: string): string {
    if s != [] && IsWhitespace(s[|s| - 1]) then TrimEnd(s[..|s| - 1]) else s
  }

  /** `trim`. */
  function Trim(s: string): string {
    TrimEnd(TrimStart(s))
  }

  /** `trimStart` drops the leading white space and nothing else. */
  lemma {:induction false} TrimStartDrops(s: string)
    ensures var r := TrimStart(s);
      && |r| <= |s| && r == s[|s| - |r|..]
      && AllWhitespace(s[..|s| - |r|])
      && (r == [] || !IsWhitespace(r[0]))
  {
    if s != [] && IsWhitespace(s[0]) {
      TrimStartDrops(s[1..]);
      var r := TrimStart(s[1..]);
      assert s[1..][..|s| - 1 - |r|] == s[1..|s| - |r|];
      assert s[..|s| - |r|] == [s[0]] + s[1..|s| - |r|];
    }
  }

  /** `trimEnd` drops the trailing white space and nothing else. */
  lemma {:induction false} TrimEndDrops(s: string)
    ensures var r := TrimEnd(s);
      && |r| <= |s| && r == s[..|r|]
      && AllWhitespace(s[|r|..])
      && (r == [] || !IsWhitespace(r[|r| - 1]))
  {
    if s != [] && IsWhitespace(s[|s| - 1]) {
      TrimEndDrops(s[..|s| - 1]);
      var r := TrimEnd(s[..|s| - 1]);
      assert s[..|s| - 1][|r|..] == s[|r|..|s| - 1];
      assert s[|r|..] == s[|r|..|s| - 1] + [s[|s| - 1]];
    }
  }

  /** What `trim` keeps neither starts nor ends with white space. */
  lemma TrimTrimmed(s: string)
    ensures var r := Trim(s);
      |r| <= |s| && (r == [] || (!IsWhitespace(r[0]) && !IsWhitespace(r[|r| - 1])))
  {
    TrimStartDrops(s);
    TrimEndDrops(TrimStart(s));
    var t := TrimStart(s);
    var r := TrimEnd(t);
    if r != [] {
      assert r[0] == t[0];
    }
  }

  /** What `trim` removes is white space on either side of what it keeps. */
  lemma TrimParts(s: string) returns (k: nat)
    ensures k + |Trim(s)| <= |s|
    ensures s == s[..k] + Trim(s) + s[k + |Trim(s)|..]
    ensures AllWhitespace(s[..k]) && AllWhitespace(s[k + |Trim(s)|..])
  {
    TrimStartDrops(s);
    TrimEndDrops(TrimStart(s));
    var t := TrimStart(s);
    var r := TrimEnd(t);
    k := |s| - |t|;
    assert t == s[k..];
    SliceAround(s, k, r);
    assert s[k + |r|..] == t[|r|..];
  }

  lemma SliceAround(s: string, k: nat, r: string)
    requires k + |r| <= |s| && r == s[k..][..|r|]
    ensures s == s[..k] + r + s[k + |r|..]
  {
    assert s[k..][..|r|] == s[k..k + |r|];
    assert s == s[..k] + s[k..k + |r|] + s[k + |r|..];
  }

  /** True when `sub` occurs in `s` starting at index `i`. */
  predicate OccursAt(s: string, sub: string, i: nat) {
    i + |sub| <= |s| && s[i..i + |sub|] == sub
  }

  /** `indexOf`: the first index at which `sub` occurs in `s`, if any. */
  function IndexOf(s: string, sub: string): (r: Option<nat>)
    ensures r.Some? ==> OccursAt(s, sub, r.value)
    ensures r.Some? ==> forall j: nat :: j < r.value ==> !OccursAt(s, sub, j)
    ensures r.None? ==> forall j: nat :: !OccursAt(s, sub, j)
  {
    if |sub| <= |s| && s[..|sub|] == sub then Some(0)
    else if s == [] then None
    else
      var rest := IndexOf(s[1..], sub);
      assert forall j: nat :: 0 < j ==> (OccursAt(s, sub, j) <==> OccursAt(s[1..], sub, j - 1)) by {
        forall j: nat | 0 < j ensures OccursAt(s, sub, j) <==> OccursAt(s[1..], sub, j - 1) {
          OccursShift(s, sub, j);
        }
      }
      match rest
      case None => None
      case Some(k) => Some(k + 1)
  }

  /** An occurrence past the first character is an occurrence in the tail, one place earlier. */
  lemma OccursShift(s: string, sub: string, j: nat)
    requires s != [] && 0 < j
    ensures OccursAt(s, sub, j) <==> OccursAt(s[1..], sub, j - 1)
  {
    if j + |sub| <= |s| {
      assert s[1..][j - 1..j - 1 + |sub|] == s[j..j + |sub|];
    }
  }

  /** `includes`. */
  predicate Includes(s: string, sub: string) {
    IndexOf(s, sub).Some?
  }

  /** `replace(/\s+/g, '')`: every white-space character removed, everything else kept in order. */
  function RemoveWhitespace(s: string): (r: string)
    ensures NoWhitespace(r)
    ensures |r| <= |s|
    ensures forall c :: c in r ==> c in s
    ensures NoWhitespace(s) ==> r == s
    ensures AllWhitespace(s) ==> r == []
  {
    if s == [] then []
    else if IsWhitespace(s[0]) then RemoveWhitespace(s[1..])
    else [s[0]] + RemoveWhitespace(s[1..])
  }

  lemma {:induction false} RemoveWhitespaceConcat(a: string, b: string)
    ensures RemoveWhitespace(a + b) == RemoveWhitespace(a) + RemoveWhitespace(b)
  {
    if a != [] {
      assert (a + b)[0] == a[0] && (a + b)[1..] == a[1..] + b;
      RemoveWhitespaceConcat(a[1..], b);
    } else {
      assert a + b == b;
    }
  }

  /**
   * The first pair, in order, whose key `s.includes`: how a `for (… in exits)` loop
   * that stops at the first key contained in the typed direction picks its exit.
   */
  function FirstKeyIncluded<T>(pairs: seq<(string, T)>, s: string): (r: Option<nat>)
    ensures r.Some? ==> r.value < |pairs| && Includes(s, pairs[r.value].0)
    ensures r.Some? ==> forall j :: 0 <= j < r.value ==> !Includes(s, pairs[j].0)
    ensures r.None? ==> forall j :: 0 <= j < |pairs| ==> !Includes(s, pairs[j].0)
  {
    if pairs == [] then None
    else if Includes(s, pairs[0].0) then Some(0)
    else
      match FirstKeyIncluded(pairs[1..], s)
      case None => None
      case Some(k) => Some(k + 1)
  }

  /**
   * The loop `for (const key in pairs) if (s.includes(key)) …` of both games'
   * `handleMovement`, which stops at the first key contained in `s`.
   */
  method FindKeyIncluded<T>(pairs: seq<(string, T)>, s: string) returns (r: Option<nat>)
    ensures r == FirstKeyIncluded(pairs, s)
  {
    var i := 0;
    while i < |pairs|
      invariant 0 <= i <= |pairs|
      invariant forall j :: 0 <= j < i ==> !Includes(s, pairs[j].0)
    {
      if Includes(s, pairs[i].0) {
        return Some(i);
      }
      i := i + 1;
    }
    return None;
  }

  /** `split(sep)` for a one-character separator: the maximal separator-free pieces. */
  function Split(s: string, sep: char): (r: seq<string>)
    ensures |r| >= 1
    ensures forall i :: 0 <= i < |r| ==> sep !in r[i]
  {
    if s == [] then [""]
    else
      var rest := Split(s[1..], sep);
      if s[0] == sep then [""] + rest else [[s[0]] + rest[0]] + rest[1..]
  }

  /** `join(sep)`. */
  function Join(xs: seq<string>, sep: string): string {
    if |xs| == 0 then ""
    else if |xs| == 1 then xs[0]
    else xs[0] + sep + Join(xs[1..], sep)
  }

  /** Every piece joined shows up in the joined string. */
  lemma {:induction false} JoinShows(xs: seq<string>, sep: string, i: nat)
    requires i < |xs|
    ensures Includes(Join(xs, sep), xs[i])
  {
    var j := Join(xs, sep);
    if i == 0 {
      if |xs| > 1 {
        assert j[..|xs[0]|] == xs[0];
      }
      assert OccursAt(j, xs[0], 0);
    } else {
      var rest := Join(xs[1..], sep);
      JoinShows(xs[1..], sep, i - 1);
      var k := IndexOf(rest, xs[i]).value;
      var at := |xs[0]| + |sep| + k;
      assert j == xs[0] + sep + rest;
      assert j[at..at + |xs[i]|] == rest[k..k + |xs[i]|];
      assert OccursAt(j, xs[i], at);
    }
  }

  /** Joining the pieces of a split with the separator gives back the string. */
  lemma {:induction false} JoinSplit(s: string, sep: char)
    ensures Join(Split(s, sep), [sep]) == s
  {
    if s != [] {
      var rest := Split(s[1..], sep);
      JoinSplit(s[1..], sep);
      if s[0] != sep {
        if |rest| > 1 {
          assert rest == [rest[0]] + rest[1..];
        }
      }
    }
  }

  /**
   * The first piece of a split is everything before the first separator, and
   * the later pieces joined back are everything after it.
   */
  lemma SplitFirst(s: string, sep: char)
    ensures var w := Split(s, sep);
      && (sep !in s ==> w == [s])
      && (sep in s ==> |w| > 1 && s == w[0] + [sep] + Join(w[1..], [sep]))
  {
    var w := Split(s, sep);
    JoinSplit(s, sep);
    if |w| == 1 {
      assert s == w[0];
    } else {
      assert s == w[0] + [sep] + Join(w[1..], [sep]);
      assert s[|w[0]|] == sep;
    }
  }

  /** The verb of a command: the text before its first space. */
  function Verb(input: string): (v: string)
    ensures ' ' !in v
  {
    Split(input, ' ')[0]
  }

  /** The object of a command: the words after the verb, joined back with single spaces. */
  function Argument(input: string): string {
    Join(Split(input, ' ')[1..], " ")
  }

  /** Verb and object are the command cut at its first space: nothing is lost or reordered. */
  lemma VerbArgument(input: string)
    ensures ' ' !in input ==> Verb(input) == input && Argument(input) == ""
    ensures ' ' in input ==> input == Verb(input) + " " + Argument(input)
  {
    SplitFirst(input, ' ');
  }
  /** Two ways of cutting a string at its first space agree. */
  lemma CutAtFirstSpace(v: string, a: string, p: string, q: string)
    requires ' ' !in v && ' ' !in p && v + " " + a == p + " " + q
    ensures v == p && a == q
  {
    var input := v + " " + a;
    assert input[|v|] == ' ' && input[|p|] == ' ';
    assert forall k :: 0 <= k < |v| ==> input[k] == v[k] != ' ';
    assert forall k :: 0 <= k < |p| ==> input[k] == p[k] != ' ';
    assert v == input[..|v|] && p == input[..|p|];
    assert a == input[|v| + 1..] && q == input[|p| + 1..];
  }

  /**
   * A command typed as a lower-case verb, one space and an object that does not end
   * in white space reads back, once trimmed and lower-cased, as that verb and the
   * lower-cased object.
   */
  lemma CommandParts(verb: string, obj: string)
    requires verb != [] && ' ' !in verb && NoCapitals(verb) && !IsWhitespace(verb[0])
    requires obj != [] && !IsWhitespace(obj[|obj| - 1])
    ensures var input := ToLower(Trim(verb + " " + obj));
      Verb(input) == verb && Argument(input) == ToLower(obj)
  {
    var raw := verb + " " + obj;
    assert TrimStart(raw) == raw by { assert raw[0] == verb[0]; }
    assert TrimEnd(raw) == raw by { assert raw[|raw| - 1] == obj[|obj| - 1]; }
    ToLowerConcat(verb + " ", obj);
    ToLowerConcat(verb, " ");
    ToLowerKeeps(verb);
    ToLowerKeeps(" ");
    var input := verb + " " + ToLower(obj);
    assert ToLower(Trim(raw)) == input;
    VerbArgument(input);
    assert ' ' in input by { assert input[|verb|] == ' '; }
    CutAtFirstSpace(Verb(input), Argument(input), verb, ToLower(obj));
  }
}
