/** The string operations of Go's standard library that the updater relies on. */
module Strings {

  // ---------- Trimming and case ----------

  /** The Unicode White Space characters. */
  predicate IsSpace(c: char) {
    '\U{0009}' <= c <= '\U{000D}' || c == ' ' || c == '\U{0085}' || c == '\U{00A0}' || c == '\U{1680}'
    || '\U{2000}' <= c <= '\U{200A}' || c == '\U{2028}' || c == '\U{2029}' || c == '\U{202F}'
    || c == '\U{205F}' || c == '\U{3000}'
  }

  function TrimLeft(s: string): string {
    if s != "" && IsSpace(s[0]) then TrimLeft(s[1..]) else s
  }

  function TrimRight(s: string): string {
    if s != "" && IsSpace(s[|s| - 1]) then TrimRight(s[..|s| - 1]) else s
  }

  function TrimSpace(s: string): string {
    TrimRight(TrimLeft(s))
  }

  function TrimPrefix(s: string, prefix: string): string {
    if prefix <= s then s[|prefix|..] else s
  }

  /** Lower case, exact for comparison with ASCII text: the two characters outside ASCII that Go
      lowers into it (dotted capital I, Kelvin sign) are included, all others are kept. */
  function LowerChar(c: char): char {
    if 'A' <= c <= 'Z' then (c as int + 32) as char
    else if c == '\U{0130}' then 'i'
    else if c == '\U{212A}' then 'k'
    else c
  }

  function ToLower(s: string): (r: string)
    ensures |r| == |s|
    ensures forall i :: 0 <= i < |s| ==> r[i] == LowerChar(s[i])
  {
    if s == "" then "" else [LowerChar(s[0])] + ToLower(s[1..])
  }

  lemma {:induction false} TrimRightKeepsSolid(s: string)
    requires s == "" || !IsSpace(s[|s| - 1])
    ensures TrimRight(s) == s
  {
  }

  /** Text whose ends are not blank is its own trimmed form. */
  lemma TrimSpaceKeepsSolid(s: string)
    requires s == "" || (!IsSpace(s[0]) && !IsSpace(s[|s| - 1]))
    ensures TrimSpace(s) == s
  {
  }

  ghost predicate Blank(s: string) {
    forall i :: 0 <= i < |s| ==> IsSpace(s[i])
  }

  /** The usual white space is, and no visible ASCII character is not. */
  lemma SpacesAre(c: char)
    ensures c in " \t\n\r\U{000B}\U{000C}\U{0085}\U{00A0}" ==> IsSpace(c)
    ensures '!' <= c <= '~' ==> !IsSpace(c)
  {
  }

  lemma {:induction false} TrimLeftIs(s: string) returns (lead: string)
    ensures s == lead + TrimLeft(s) && Blank(lead) && (TrimLeft(s) == "" || !IsSpace(TrimLeft(s)[0]))
  {
    lead := "";
    if s != "" && IsSpace(s[0]) {
      var rest := TrimLeftIs(s[1..]);
      lead := [s[0]] + rest;
    }
  }

  lemma {:induction false} TrimRightIs(s: string) returns (trail: string)
    ensures s == TrimRight(s) + trail && Blank(trail)
    ensures TrimRight(s) == "" || !IsSpace(TrimRight(s)[|TrimRight(s)| - 1])
  {
    trail := "";
    if s != "" && IsSpace(s[|s| - 1]) {
      var rest := TrimRightIs(s[..|s| - 1]);
      trail := rest + [s[|s| - 1]];
    }
  }

  /** Trimming takes away white space at both ends, all of it and nothing else. */
  lemma TrimSpaceIs(s: string) returns (lead: string, trail: string)
    ensures var t := TrimSpace(s);
      && s == lead + t + trail && Blank(lead) && Blank(trail)
      && (t == "" || (!IsSpace(t[0]) && !IsSpace(t[|t| - 1])))
  {
    lead := TrimLeftIs(s);
    trail := TrimRightIs(TrimLeft(s));
    hide IsSpace;
    var t := TrimSpace(s);
    assert t != "" ==> t[0] == TrimLeft(s)[0];
  }

  lemma BlankIs(s: string)
    ensures TrimSpace(s) == "" <==> Blank(s)
  {
    var lead, trail := TrimSpaceIs(s);
    if TrimSpace(s) != "" { assert s[|lead|] == TrimSpace(s)[0]; }
  }

  lemma TrimTwice(s: string)
    ensures TrimSpace(TrimSpace(s)) == TrimSpace(s)
  {
    var lead, trail := TrimSpaceIs(s);
    TrimSpaceKeepsSolid(TrimSpace(s));
  }

  lemma TrimPrefixIs(s: string, prefix: string)
    ensures TrimPrefix(prefix + s, prefix) == s && (!(prefix <= s) ==> TrimPrefix(s, prefix) == s)
  {
    assert (prefix + s)[|prefix|..] == s;
  }

  // ---------- Splitting ----------

  /** The text before the first separator, all of it if there is none. */
  function UpTo(s: string, sep: char): (head: string)
    ensures |head| <= |s|
  {
    if s == "" || s[0] == sep then "" else [s[0]] + UpTo(s[1..], sep)
  }

  function SplitOn(s: string, sep: char): seq<string> {
    var head := UpTo(s, sep);
    if |head| == |s| then [s] else [head] + SplitOn(s[|head| + 1..], sep)
  }

  lemma {:induction false} UpToIs(s: string, sep: char)
    ensures UpTo(s, sep) <= s && sep !in UpTo(s, sep)
    ensures forall k :: 0 <= k < |UpTo(s, sep)| ==> s[k] != sep
    ensures |UpTo(s, sep)| < |s| ==> s[|UpTo(s, sep)|] == sep
  {
    if s != "" && s[0] != sep {
      UpToIs(s[1..], sep);
    }
  }

  lemma {:induction false} UpToUnique(s: string, sep: char, n: nat)
    requires n <= |s| && sep !in s[..n] && (n == |s| || s[n] == sep)
    ensures UpTo(s, sep) == s[..n]
  {
    if n > 0 {
      assert s[0] == s[..n][0] && s[1..][..n - 1] == s[..n][1..];
      UpToUnique(s[1..], sep, n - 1);
    }
  }

  /** A stretch of the text from a separator or the start to the next separator or the end. */
  ghost predicate IsPiece(s: string, sep: char, i: nat, j: nat) {
    i <= j <= |s| && sep !in s[i..j] && (i == 0 || s[i - 1] == sep) && (j == |s| || s[j] == sep)
  }

  ghost predicate HasPiece(s: string, sep: char, p: string) {
    exists i: nat, j: nat :: i <= j <= |s| && IsPiece(s, sep, i, j) && s[i..j] == p
  }

  /** Splitting gives exactly the pieces. */
  lemma {:induction false} SplitOnIs(s: string, sep: char, p: string)
    ensures p in SplitOn(s, sep) <==> HasPiece(s, sep, p)
  {
    var n := |UpTo(s, sep)|;
    UpToIs(s, sep);
    PiecesAre(s, sep, p);
    hide HasPiece, UpTo;
    assert UpTo(s, sep) == s[..n] && s[..|s|] == s;
    if n < |s| {
      SplitOnIs(s[n + 1..], sep, p);
    }
  }

  lemma PiecesAre(s: string, sep: char, p: string)
    ensures var n := |UpTo(s, sep)|;
      HasPiece(s, sep, p) <==> p == s[..n] || (n < |s| && HasPiece(s[n + 1..], sep, p))
  {
    var n := |UpTo(s, sep)|;
    UpToIs(s, sep);
    hide UpTo;
    assert s[0..n] == s[..n] && IsPiece(s, sep, 0, n);
    hide IsPiece;
    ThatPiece(s, sep, 0, n);
    if i: nat, j: nat :| i <= j <= |s| && IsPiece(s, sep, i, j) && s[i..j] == p {
      SomePiece(s, sep, n, i, j);
    }
    if n < |s| && HasPiece(s[n + 1..], sep, p) {
      RestHasPiece(s, sep, n + 1, p);
    }
  }

  lemma RestHasPiece(s: string, sep: char, n: nat, p: string)
    requires 0 < n <= |s| && s[n - 1] == sep && HasPiece(s[n..], sep, p)
    ensures HasPiece(s, sep, p)
  {
    hide IsPiece;
    var rest := s[n..];
    var i: nat, j: nat :| i <= j <= |rest| && IsPiece(rest, sep, i, j) && rest[i..j] == p;
    hide HasPiece;
    LaterPiece(s, sep, n, i, j);
    ThatPiece(s, sep, n + i, n + j);
  }

  lemma SomePiece(s: string, sep: char, n: nat, i: nat, j: nat)
    requires IsPiece(s, sep, i, j) && n == |UpTo(s, sep)| && (n < |s| ==> s[n] == sep)
    ensures s[i..j] == s[..n] || (n < |s| && HasPiece(s[n + 1..], sep, s[i..j]))
  {
    hide HasPiece;
    if i > n {
      LaterPiece(s, sep, n + 1, i - n - 1, j - n - 1);
      ThatPiece(s[n + 1..], sep, i - n - 1, j - n - 1);
    } else {
      FirstPiece(s, sep, i, j);
    }
  }

  lemma ThatPiece(s: string, sep: char, i: nat, j: nat)
    requires IsPiece(s, sep, i, j)
    ensures HasPiece(s, sep, s[i..j])
  {
  }

  lemma LaterPiece(s: string, sep: char, n: nat, i: nat, j: nat)
    requires 0 < n <= |s| && s[n - 1] == sep && i <= j <= |s| - n
    ensures s[n..][i..j] == s[n + i..n + j]
    ensures IsPiece(s[n..], sep, i, j) <==> IsPiece(s, sep, n + i, n + j)
  {
  }

  lemma FirstPiece(s: string, sep: char, i: nat, j: nat)
    requires IsPiece(s, sep, i, j) && i <= |UpTo(s, sep)|
    ensures i == 0 && j == |UpTo(s, sep)|
  {
    UpToIs(s, sep);
    hide UpTo;
    assert i == 0;
    assert s[i..j] == s[..j];
    UpToUnique(s, sep, j);
  }

  /** `u` is the capital of the letter `l`. */
  predicate IsCapitalOf(u: char, l: char) {
    'a' <= l <= 'z' && u as int + 32 == l as int
  }

  /** A text in lower case is a given word, or word and punctuation, exactly if it spells it in either case; no
      other character is lowered into ASCII but to `i` and `k`. */
  lemma SpelledInAnyCase(s: string, word: string)
    requires forall i :: 0 <= i < |word| ==> word[i] < '\U{0080}' && !('A' <= word[i] <= 'Z') && word[i] !in "ik"
    ensures ToLower(s) == word <==>
            |s| == |word| && forall i :: 0 <= i < |s| ==> s[i] == word[i] || IsCapitalOf(s[i], word[i])
  {
    assert |ToLower(s)| == |s|;
    if |s| == |word| {
      forall i | 0 <= i < |s|
        ensures ToLower(s)[i] == word[i] <==> s[i] == word[i] || IsCapitalOf(s[i], word[i])
      {
        LowerCharIs(s[i], word[i]);
      }
      hide *;
      assert ToLower(s) == word <==> forall i :: 0 <= i < |s| ==> ToLower(s)[i] == word[i];
    }
  }

  lemma LowerCharIs(c: char, l: char)
    requires l < '\U{0080}' && !('A' <= l <= 'Z') && l !in "ik"
    ensures LowerChar(c) == l <==> c == l || IsCapitalOf(c, l)
  {
  }

  /** The two letters that a character outside ASCII is lowered into as well. */
  lemma LoweredIntoIAndK(c: char)
    ensures LowerChar(c) == 'i' <==> c in "iI\U{0130}"
    ensures LowerChar(c) == 'k' <==> c in "kK\U{212A}"
  {
    assert forall s: string :: |s| == 3 ==> (c in s <==> c == s[0] || c == s[1] || c == s[2]);
  }

  // ---------- The order in which Go sorts strings ----------

  predicate Less(a: string, b: string) {
    b != "" && (a == "" || a[0] < b[0] || (a[0] == b[0] && Less(a[1..], b[1..])))
  }

  /** Alike before `k`, and there `a` has the smaller character or its end. */
  ghost predicate SmallerAt(a: string, b: string, k: nat) {
    k <= |a| && k < |b| && (forall i :: 0 <= i < k ==> a[i] == b[i]) && (k == |a| || a[k] < b[k])
  }

  /** The order is that of the first difference. */
  lemma {:induction false} LessByFirstDifference(a: string, b: string)
    ensures Less(a, b) <==> exists k: nat :: SmallerAt(a, b, k)
  {
    if a != "" && b != "" && a[0] == b[0] {
      LessByFirstDifference(a[1..], b[1..]);
      if k: nat :| SmallerAt(a[1..], b[1..], k) {
        assert SmallerAt(a, b, k + 1);
      }
      if k: nat :| SmallerAt(a, b, k) {
        assert SmallerAt(a[1..], b[1..], k - 1);
      }
    } else if Less(a, b) {
      assert SmallerAt(a, b, 0);
    }
  }

  lemma {:induction false} LessIrreflexive(a: string)
    ensures !Less(a, a)
  {
    if a != "" { LessIrreflexive(a[1..]); }
  }

  lemma {:induction false} LessTotal(a: string, b: string)
    ensures a == b || Less(a, b) || Less(b, a)
  {
    if a != "" && b != "" && a[0] == b[0] {
      LessTotal(a[1..], b[1..]);
      assert a == [a[0]] + a[1..] && b == [b[0]] + b[1..];
    }
  }

  lemma {:induction false} LessTransitive(a: string, b: string, c: string)
    requires Less(a, b) && Less(b, c)
    ensures Less(a, c)
  {
    if a != "" && a[0] == b[0] && b[0] == c[0] {
      LessTransitive(a[1..], b[1..], c[1..]);
    }
  }

  /** Strictly increasing: sorted and without repeats. */
  ghost predicate Increasing(s: seq<string>) {
    forall i, j :: 0 <= i < j < |s| ==> Less(s[i], s[j])
  }

  ghost function Elements(s: seq<string>): set<string> {
    set x | x in s
  }

  lemma NoElements(s: seq<string>)
    ensures s == [] <==> Elements(s) == {}
  {
    if s != [] { assert s[0] in Elements(s); }
  }

  /** A set of strings has only one strictly increasing listing. */
  lemma {:induction false} IncreasingIsCanonical(s: seq<string>, t: seq<string>)
    requires Increasing(s) && Increasing(t) && Elements(s) == Elements(t)
    ensures s == t
  {
    NoElements(s);
    NoElements(t);
    if s != [] {
      assert s[0] in Elements(t);
      assert t[0] in Elements(s);
      FirstIsLeast(s, t[0]);
      FirstIsLeast(t, s[0]);
      if s[0] != t[0] {
        LessTransitive(s[0], t[0], s[0]);
        LessIrreflexive(s[0]);
      }
      RestElements(s);
      RestElements(t);
      IncreasingIsCanonical(s[1..], t[1..]);
      assert s == [s[0]] + s[1..] && t == [t[0]] + t[1..];
    }
  }

  lemma FirstIsLeast(s: seq<string>, x: string)
    requires Increasing(s) && x in s
    ensures x == s[0] || Less(s[0], x)
  {
    var i :| 0 <= i < |s| && s[i] == x;
  }

  lemma RestElements(s: seq<string>)
    requires Increasing(s) && s != []
    ensures Elements(s[1..]) == Elements(s) - {s[0]} && Increasing(s[1..])
  {
    forall x | x in Elements(s) - {s[0]} ensures x in s[1..] {
      var i :| 0 <= i < |s| && s[i] == x;
      assert s[1..][i - 1] == x;
    }
    forall i | 0 <= i < |s[1..]| ensures s[1..][i] != s[0] {
      assert Less(s[0], s[i + 1]);
      LessIrreflexive(s[0]);
    }
  }

  /** Finds where `x` stands, or belongs, in an increasing list. */
  method BinarySearch(s: seq<string>, x: string) returns (index: nat, found: bool)
    requires Increasing(s)
    ensures index <= |s|
    ensures forall i :: 0 <= i < index ==> Less(s[i], x)
    ensures found ==> index < |s| && s[index] == x
    ensures !found ==> forall i :: index <= i < |s| ==> Less(x, s[i])
    ensures found <==> x in s
  {
    var hi := |s|;
    index := 0;
    while index < hi
      invariant 0 <= index <= hi <= |s|
      invariant forall i :: 0 <= i < index ==> Less(s[i], x)
      invariant forall i :: hi <= i < |s| ==> !Less(s[i], x)
    {
      var mid := (index + hi) / 2;
      if Less(s[mid], x) {
        forall i | 0 <= i < mid ensures Less(s[i], x) { LessTransitive(s[i], s[mid], x); }
        index := mid + 1;
      } else {
        forall i | mid <= i < |s| ensures !Less(s[i], x) {
          if i > mid && Less(s[i], x) { LessTransitive(s[mid], s[i], x); }
        }
        hi := mid;
      }
    }
    found := index < |s| && s[index] == x;
    LessIrreflexive(x);
    forall i | index <= i < |s| && !found ensures Less(x, s[i]) {
      LessTotal(s[i], x);
      if i > index { assert Less(s[index], s[i]); }
    }
  }

  /** Puts `x` where a search placed it. */
  lemma InsertIncreasing(s: seq<string>, x: string, index: nat)
    requires Increasing(s) && index <= |s|
    requires forall i :: 0 <= i < index ==> Less(s[i], x)
    requires forall i :: index <= i < |s| ==> Less(x, s[i])
    ensures Increasing(s[..index] + [x] + s[index..])
    ensures Elements(s[..index] + [x] + s[index..]) == Elements(s) + {x}
  {
    var t := s[..index] + [x] + s[index..];
    assert s == s[..index] + s[index..];
    forall i, j | 0 <= i < j < |t| ensures Less(t[i], t[j]) {
      if i < index && j > index { assert t[i] == s[i] && t[j] == s[j - 1]; }
    }
  }

  lemma DeleteIncreasing(s: seq<string>, index: nat)
    requires Increasing(s) && index < |s|
    ensures Increasing(s[..index] + s[index + 1..])
    ensures Elements(s[..index] + s[index + 1..]) == Elements(s) - {s[index]}
  {
    var t := s[..index] + s[index + 1..];
    forall i | 0 <= i < |t| ensures t[i] != s[index] {
      var k := if i < index then i else i + 1;
      assert t[i] == s[k];
      LessIrreflexive(s[index]);
    }
    forall i | 0 <= i < |s| && s[i] != s[index] ensures s[i] in t {
      assert t[if i < index then i else i - 1] == s[i];
    }
  }

  /** Collects a set of keys, met in any order, into the sorted slice Go ranges over. */
  method SortedKeys(keys: set<string>) returns (sorted: seq<string>)
    ensures Increasing(sorted) && Elements(sorted) == keys
  {
    sorted := [];
    var rest := keys;
    while rest != {}
      invariant rest <= keys && Increasing(sorted) && Elements(sorted) == keys - rest
      decreases rest
    {
      var key :| key in rest;
      assert key !in Elements(sorted);
      var index, found := BinarySearch(sorted, key);
      InsertIncreasing(sorted, key, index);
      sorted := sorted[..index] + [key] + sorted[index..];
      rest := rest - {key};
    }
  }
}
