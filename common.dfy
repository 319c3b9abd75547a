/** Helpers shared by every screen component: optional values, the JavaScript
    string operations the components use (trim, split, join, case mapping,
    startsWith), decimal rendering of numbers, Set-based de-duplication,
    filtering of rows by id, and the image checks of the file pickers. */
module Common {

  datatype Option<T> = None | Some(value: T) {
    /** JavaScript's `x ?? d`: the value when present, else the default. */
    function GetOr(default: T): T {
      if Some? then value else default
    }
  }

  /** The outcome of a remote call: success, or an error that may carry a
      message. */
  datatype Outcome = Success | Failure(message: Option<string>)

  /** JavaScript's `a ?? b` on two optional values. */
  function OrElse<T>(a: Option<T>, b: Option<T>): (r: Option<T>)
    ensures r.Some? <==> a.Some? || b.Some?
    ensures a.Some? ==> r == a
    ensures a.None? ==> r == b
  {
    if a.Some? then a else b
  }

  /** The truthiness of an optional string: present and non-empty. */
  predicate Truthy(s: Option<string>) {
    s.Some? && s.value != ""
  }

  /** `a || b || fallback` on optional strings: the first truthy one, else the
      fallback. */
  function FirstTruthy(a: Option<string>, b: Option<string>, fallback: string): (r: string)
    ensures Truthy(a) ==> r == a.value
    ensures !Truthy(a) && Truthy(b) ==> r == b.value
    ensures !Truthy(a) && !Truthy(b) ==> r == fallback
    ensures fallback != "" ==> r != ""
  {
    if Truthy(a) then a.value else if Truthy(b) then b.value else fallback
  }

  // ---------------------------------------------------------------------------
  // White space and trimming
  // ---------------------------------------------------------------------------

  /** The white space and line terminator characters of ECMAScript, which both
      String.prototype.trim and the regular-expression class \s use. No
      letter, digit, '-', '.' or '_' is among them. */
  predicate IsSpace(c: char)
    ensures IsSpace(c) ==> !('a' <= c <= 'z') && !('A' <= c <= 'Z') && !('0' <= c <= '9') && c != '-' && c != '.' && c != '_'
  {
    c == ' ' || c == '\t' || c == '\n' || c == '\r' || c == '\U{B}' || c == '\U{C}'
    || c == '\U{A0}' || c == '\U{1680}' || ('\U{2000}' <= c <= '\U{200A}')
    || c == '\U{2028}' || c == '\U{2029}' || c == '\U{202F}' || c == '\U{205F}'
    || c == '\U{3000}' || c == '\U{FEFF}'
  }

  predicate AllSpace(s: string) {
    forall k :: 0 <= k < |s| ==> IsSpace(s[k])
  }

  /** The number of white space characters `s` starts with. */
  function LeadingSpaces(s: string): (n: nat)
    ensures n <= |s|
    ensures forall k :: 0 <= k < n ==> IsSpace(s[k])
    ensures n < |s| ==> !IsSpace(s[n])
  {
    if s != [] && IsSpace(s[0]) then 1 + LeadingSpaces(s[1..]) else 0
  }

  /** The number of white space characters `s` ends with. */
  function TrailingSpaces(s: string): (n: nat)
    ensures n <= |s|
    ensures forall k :: |s| - n <= k < |s| ==> IsSpace(s[k])
    ensures n < |s| ==> !IsSpace(s[|s| - n - 1])
  {
    if s != [] && IsSpace(s[|s| - 1]) then 1 + TrailingSpaces(s[..|s| - 1]) else 0
  }

  /** String.prototype.trim: the slice of `s` between leading and trailing
      white space; empty exactly when `s` is all white space. */
  function Trim(s: string): (r: string)
    ensures |r| <= |s|
    ensures var i := LeadingSpaces(s);
      i + |r| <= |s| && r == s[i..i + |r|]
      && (forall k :: 0 <= k < i ==> IsSpace(s[k]))
      && (forall k :: i + |r| <= k < |s| ==> IsSpace(s[k]))
    ensures r == [] <==> AllSpace(s)
    ensures r != [] ==> !IsSpace(r[0]) && !IsSpace(r[|r| - 1])
  {
    var i := LeadingSpaces(s);
    var t := s[i..];
    var j := TrailingSpaces(t);
    assert forall k :: i + |t| - j <= k < |s| ==> s[k] == t[k - i];
    t[..|t| - j]
  }

  /** `s.trim() || null`: the trimmed text, or nothing when it is empty. */
  function TrimOrNull(s: string): (r: Option<string>)
    ensures r.None? <==> AllSpace(s)
    ensures r.Some? ==> r.value == Trim(s) && r.value != ""
  {
    var t := Trim(s);
    if t == "" then None else Some(t)
  }

  /** Trimming twice is trimming once. */
  lemma {:induction false} TrimIdempotent(s: string)
    ensures Trim(Trim(s)) == Trim(s)
  {
    var t := Trim(s);
    if t != [] {
      assert LeadingSpaces(t) == 0;
      assert TrailingSpaces(t) == 0;
    }
  }

  // ---------------------------------------------------------------------------
  // Case mapping (ASCII letters only) and prefixes
  // ---------------------------------------------------------------------------

  function LowerChar(c: char): (r: char)
    ensures IsSpace(r) <==> IsSpace(c)
  {
    if 'A' <= c <= 'Z' then (c as int + 32) as char else c
  }

  function UpperChar(c: char): (r: char)
    ensures IsSpace(r) <==> IsSpace(c)
  {
    if 'a' <= c <= 'z' then (c as int - 32) as char else c
  }

  /** String.prototype.toLowerCase on ASCII letters: same length, each
      character mapped on its own. */
  function ToLower(s: string): (r: string)
    ensures |r| == |s| && forall k :: 0 <= k < |s| ==> r[k] == LowerChar(s[k])
  {
    seq(|s|, k requires 0 <= k < |s| => LowerChar(s[k]))
  }

  /** String.prototype.toUpperCase on ASCII letters. */
  function ToUpper(s: string): (r: string)
    ensures |r| == |s| && forall k :: 0 <= k < |s| ==> r[k] == UpperChar(s[k])
  {
    seq(|s|, k requires 0 <= k < |s| => UpperChar(s[k]))
  }

  predicate StartsWith(s: string, prefix: string) {
    |prefix| <= |s| && s[..|prefix|] == prefix
  }

  // ---------------------------------------------------------------------------
  // split / join on one separator character
  // ---------------------------------------------------------------------------

  /** Index of the first occurrence of `c` in `s`. */
  function IndexOf(s: string, c: char): (i: nat)
    requires c in s
    ensures i < |s| && s[i] == c && forall j :: 0 <= j < i ==> s[j] != c
  {
    if s[0] == c then 0 else 1 + IndexOf(s[1..], c)
  }

  /** String.prototype.split with a one-character separator: the pieces between
      separators, always at least one (the empty string splits into [""]). */
  function Split(s: string, sep: char): (r: seq<string>)
    ensures |r| >= 1
    ensures forall w :: w in r ==> sep !in w
    decreases |s|
  {
    if sep !in s then [s]
    else
      var i := IndexOf(s, sep);
      [s[..i]] + Split(s[i + 1..], sep)
  }

  /** Array.prototype.join with a one-character separator. */
  function Join(ws: seq<string>, sep: char): string
    decreases |ws|
  {
    if ws == [] then ""
    else if |ws| == 1 then ws[0]
    else ws[0] + [sep] + Join(ws[1..], sep)
  }

  /** One step of Split: the piece before the first separator, then the
      pieces of the rest. */
  lemma SplitAtFirst(s: string, sep: char)
    requires sep in s
    ensures Split(s, sep) == [s[..IndexOf(s, sep)]] + Split(s[IndexOf(s, sep) + 1..], sep)
  {
  }

  /** One step of Join on at least two pieces. */
  lemma JoinCons(head: string, rest: seq<string>, sep: char)
    requires rest != []
    ensures Join([head] + rest, sep) == head + [sep] + Join(rest, sep)
  {
    assert ([head] + rest)[1..] == rest;
  }

  /** A sequence is its part before position i, the element at i, and its
      part after i. */
  lemma SplitAround<T>(s: seq<T>, i: nat)
    requires i < |s|
    ensures s == s[..i] + [s[i]] + s[i + 1..]
  {
    assert s[..i] + [s[i]] == s[..i + 1];
  }

  /** Splitting a string and joining the pieces gives the string back. */
  lemma {:induction false} JoinSplit(s: string, sep: char)
    ensures Join(Split(s, sep), sep) == s
    decreases |s|
  {
    if sep in s {
      var i := IndexOf(s, sep);
      var tail := s[i + 1..];
      SplitAtFirst(s, sep);
      JoinSplit(tail, sep);
      JoinCons(s[..i], Split(tail, sep), sep);
      SplitAround(s, i);
    }
  }

  /** A separator-free piece followed by the separator splits off first. */
  lemma SplitCons(a: string, sep: char, b: string)
    requires sep !in a
    ensures Split(a + [sep] + b, sep) == [a] + Split(b, sep)
  {
    var s := a + [sep] + b;
    assert s[..|a|] == a;
    assert s[|a|] == sep;
    var i := IndexOf(s, sep);
    assert forall j :: 0 <= j < |a| ==> s[j] == a[j];
    assert i == |a|;
    assert s[i + 1..] == b;
  }

  /** The text after the last separator (all of `s` when there is none):
      what `s.split(sep).pop()` yields. */
  function LastPiece(s: string, sep: char): (r: string)
    ensures sep !in r
  {
    var ws := Split(s, sep);
    ws[|ws| - 1]
  }

  /** A separator-free piece in front does not change the last piece. */
  lemma LastPieceCons(a: string, sep: char, b: string)
    requires sep !in a
    ensures LastPiece(a + [sep] + b, sep) == LastPiece(b, sep)
  {
    SplitCons(a, sep, b);
    var ws := Split(b, sep);
    assert ([a] + ws)[|ws|] == ws[|ws| - 1];
  }

  /** The last piece is what follows the last separator. */
  lemma {:induction false} LastPieceAfterSeparator(stem: string, sep: char, tail: string)
    requires sep !in tail
    ensures LastPiece(stem + [sep] + tail, sep) == tail
    decreases |stem|
  {
    if sep in stem {
      var i := IndexOf(stem, sep);
      var head, rest := stem[..i], stem[i + 1..];
      assert stem == head + [sep] + rest;
      assert stem + [sep] + tail == head + [sep] + (rest + [sep] + tail);
      LastPieceCons(head, sep, rest + [sep] + tail);
      LastPieceAfterSeparator(rest, sep, tail);
    } else {
      LastPieceCons(stem, sep, tail);
    }
  }

  // ---------------------------------------------------------------------------
  // Decimal rendering of numbers (template literals) and its inverse
  // ---------------------------------------------------------------------------

  predicate IsDigit(c: char) {
    '0' <= c <= '9'
  }

  function DigitChar(d: nat): (c: char)
    requires d < 10
    ensures IsDigit(c) && c as int - '0' as int == d
  {
    "0123456789"[d]
  }

  /** `${n}` for a non-negative integer. */
  function NatToString(n: nat): (r: string)
    ensures r != [] && forall k :: 0 <= k < |r| ==> IsDigit(r[k])
    decreases n
  {
    if n < 10 then [DigitChar(n)] else NatToString(n / 10) + [DigitChar(n % 10)]
  }

  /** The value of a string of decimal digits. */
  function DigitsValue(s: string): nat
    requires forall k :: 0 <= k < |s| ==> IsDigit(s[k])
  {
    if s == [] then 0
    else
      assert IsDigit(s[|s| - 1]);
      DigitsValue(s[..|s| - 1]) * 10 + (s[|s| - 1] as int - '0' as int)
  }

  /** A non-empty string of decimal digits read as a number; None for anything else. */
  function ParseDecimal(s: string): (r: Option<nat>)
    ensures r.Some? <==> s != [] && forall k :: 0 <= k < |s| ==> IsDigit(s[k])
  {
    if s != [] && forall k :: 0 <= k < |s| ==> IsDigit(s[k]) then Some(DigitsValue(s)) else None
  }

  /** Reading back the decimal rendering of a number gives the number. */
  lemma {:induction false} ParseNatToString(n: nat)
    ensures ParseDecimal(NatToString(n)) == Some(n)
    decreases n
  {
    var s := NatToString(n);
    if n < 10 {
      assert DigitsValue(s) == DigitsValue([]) * 10 + n;
    } else {
      ParseNatToString(n / 10);
      assert s[..|s| - 1] == NatToString(n / 10);
      assert s[|s| - 1] == DigitChar(n % 10);
      assert DigitsValue(s) == (n / 10) * 10 + n % 10;
    }
  }

  /** Different numbers render differently. */
  lemma NatToStringInjective(m: nat, n: nat)
    requires NatToString(m) == NatToString(n)
    ensures m == n
  {
    ParseNatToString(m);
    ParseNatToString(n);
  }

  // ---------------------------------------------------------------------------
  // Sequences: duplicates, `Array.from(new Set(xs))`, and filtering by a key
  // ---------------------------------------------------------------------------

  predicate NoDuplicates<T(==)>(xs: seq<T>) {
    forall i, j :: 0 <= i < j < |xs| ==> xs[i] != xs[j]
  }

  /** `Array.from(new Set(xs))`: each element once, at its first occurrence. */
  function Distinct<T(==,!new)>(xs: seq<T>): (r: seq<T>)
    ensures forall x :: x in r <==> x in xs
    ensures NoDuplicates(r)
    ensures |r| <= |xs|
    decreases |xs|
  {
    if xs == [] then []
    else
      var init := Distinct(xs[..|xs| - 1]);
      var x := xs[|xs| - 1];
      assert forall y :: y in xs <==> y in xs[..|xs| - 1] || y == x by {
        assert xs == xs[..|xs| - 1] + [x];
      }
      if x in init then init else init + [x]
  }

  /** `new Set` keeps insertion order: of two elements of the distinct list,
      the earlier one occurs in the input before any occurrence of the later
      one. */
  lemma {:induction false} DistinctKeepsFirstOrder<T(!new)>(xs: seq<T>, i: nat, j: nat, k: nat)
    requires i < j < |Distinct(xs)| && k < |xs| && xs[k] == Distinct(xs)[j]
    ensures exists l :: 0 <= l < k && xs[l] == Distinct(xs)[i]
    decreases |xs|
  {
    var init := xs[..|xs| - 1];
    var x := xs[|xs| - 1];
    var r0 := Distinct(init);
    var r := Distinct(xs);
    assert xs == init + [x];
    if j < |r0| {
      assert r[i] == r0[i] && r[j] == r0[j];
      var k' := k;
      if k == |init| {
        assert r0[j] in init;
        k' :| 0 <= k' < |init| && init[k'] == r0[j];
      }
      assert init[k'] == r0[j];
      DistinctKeepsFirstOrder(init, i, j, k');
      var l :| 0 <= l < k' && init[l] == r0[i];
      assert xs[l] == init[l];
    } else {
      assert r == r0 + [x] && x !in init;
      assert k == |init|;
      assert r[i] == r0[i] && r0[i] in init;
      var l :| 0 <= l < |init| && init[l] == r0[i];
      assert xs[l] == init[l];
    }
  }

  /** De-duplicating a list without duplicates changes nothing. */
  lemma {:induction false} DistinctOfDistinct<T(!new)>(xs: seq<T>)
    requires NoDuplicates(xs)
    ensures Distinct(xs) == xs
    decreases |xs|
  {
    if xs != [] {
      var init := xs[..|xs| - 1];
      assert NoDuplicates(init);
      DistinctOfDistinct(init);
      assert xs[|xs| - 1] !in init;
      assert init + [xs[|xs| - 1]] == xs;
    }
  }

  /** Some element of `xs` has key `k`: `xs.some(x => key(x) === k)`. */
  predicate HasKey<T>(xs: seq<T>, key: T -> nat, k: nat) {
    exists i :: 0 <= i < |xs| && key(xs[i]) == k
  }

  /** No two elements of `xs` share a key. */
  predicate UniqueKeys<T>(xs: seq<T>, key: T -> nat) {
    forall i, j :: 0 <= i < j < |xs| ==> key(xs[i]) != key(xs[j])
  }

  /** Concatenation is associative; stated once so that proofs with many
      quantifiers in scope need not rediscover it element by element. */
  lemma ConcatAssoc<T>(a: seq<T>, b: seq<T>, c: seq<T>)
    ensures a + (b + c) == (a + b) + c
  {
  }

  /** The tail of a list with unique keys has unique keys. */
  lemma UniqueKeysTail<T>(xs: seq<T>, key: T -> nat)
    requires xs != [] && UniqueKeys(xs, key)
    ensures UniqueKeys(xs[1..], key)
  {
    forall i, j | 0 <= i < j < |xs| - 1 ensures key(xs[1..][i]) != key(xs[1..][j]) {
      assert xs[1..][i] == xs[i + 1] && xs[1..][j] == xs[j + 1];
    }
  }

  /** `xs.filter(x => key(x) !== k)`: every element whose key differs from
      `k`, in order. */
  function Without<T(!new)>(xs: seq<T>, key: T -> nat, k: nat): (r: seq<T>)
    ensures |r| <= |xs|
    ensures forall x :: x in r <==> x in xs && key(x) != k
    ensures !HasKey(r, key, k)
  {
    if xs == [] then []
    else if key(xs[0]) == k then Without(xs[1..], key, k)
    else [xs[0]] + Without(xs[1..], key, k)
  }

  /** Filtering distributes over concatenation, so order is preserved. */
  lemma {:induction false} WithoutAppend<T(!new)>(a: seq<T>, b: seq<T>, key: T -> nat, k: nat)
    ensures Without(a + b, key, k) == Without(a, key, k) + Without(b, key, k)
    decreases |a|
  {
    if a == [] {
      assert a + b == b;
    } else {
      assert (a + b)[0] == a[0];
      assert (a + b)[1..] == a[1..] + b;
      WithoutAppend(a[1..], b, key, k);
    }
  }

  /** Filtering out a key no element has changes nothing. */
  lemma {:induction false} WithoutAbsent<T(!new)>(xs: seq<T>, key: T -> nat, k: nat)
    requires !HasKey(xs, key, k)
    ensures Without(xs, key, k) == xs
    decreases |xs|
  {
    if xs != [] {
      assert key(xs[0]) != k;
      assert !HasKey(xs[1..], key, k) by {
        forall i | 0 <= i < |xs| - 1 ensures key(xs[1..][i]) != k {
          assert xs[1..][i] == xs[i + 1];
        }
      }
      WithoutAbsent(xs[1..], key, k);
    }
  }

  /** Filtering keeps keys unique. */
  lemma {:induction false} WithoutKeepsUnique<T(!new)>(xs: seq<T>, key: T -> nat, k: nat)
    requires UniqueKeys(xs, key)
    ensures UniqueKeys(Without(xs, key, k), key)
    decreases |xs|
  {
    if xs != [] {
      assert UniqueKeys(xs[1..], key) by {
        forall i, j | 0 <= i < j < |xs| - 1 ensures key(xs[1..][i]) != key(xs[1..][j]) {
          assert xs[1..][i] == xs[i + 1] && xs[1..][j] == xs[j + 1];
        }
      }
      WithoutKeepsUnique(xs[1..], key, k);
      var rest := Without(xs[1..], key, k);
      if key(xs[0]) != k {
        forall x | x in rest ensures key(x) != key(xs[0]) {
          var j :| 0 <= j < |xs[1..]| && xs[1..][j] == x;
          assert xs[j + 1] == x;
        }
      }
    }
  }

  // ---------------------------------------------------------------------------
  // Image files picked by the user
  // ---------------------------------------------------------------------------

  /** What the components read of a browser File: name, MIME type, size in bytes. */
  datatype FileInfo = FileInfo(name: string, mimeType: string, size: nat)

  const MaxImageBytes: nat := 5 * 1024 * 1024

  /** `f.type.startsWith('image/')`. */
  predicate IsImageType(f: FileInfo) {
    StartsWith(f.mimeType, "image/")
  }

  /** `!(f.size > 5 * 1024 * 1024)`: at most 5242880 bytes. */
  predicate WithinSizeLimit(f: FileInfo)
    ensures WithinSizeLimit(f) <==> f.size <= 5242880
  {
    f.size <= MaxImageBytes
  }

  /** `file.name.split('.').pop() || 'jpg'`: the text after the last dot, or
      "jpg" when that is empty. */
  function Extension(name: string): (r: string)
    ensures r != "" && '.' !in r
  {
    var e := LastPiece(name, '.');
    if e == "" then "jpg" else e
  }

  /** The extension of `stem.ext` is `ext` whenever `ext` is a non-empty,
      dot-free text. */
  lemma ExtensionOfDotted(stem: string, ext: string)
    requires ext != "" && '.' !in ext
    ensures Extension(stem + "." + ext) == ext
  {
    LastPieceAfterSeparator(stem, '.', ext);
  }
}
