/** JavaScript values and string operations as the slices and components use them. */
module Js {

  /** One property of a JavaScript object: missing (`undefined`), `null`, or a value. */
  datatype Val<T> = Absent | Null | Has(v: T)

  /** Truthiness of a string-valued property: a non-empty string. */
  predicate TruthyStr(x: Val<string>) {
    x.Has? && x.v != ""
  }

  /** Truthiness of a boolean-valued property. */
  predicate IsTrue(x: Val<bool>) {
    x == Has(true)
  }

  /** `x || d` for a string-valued property. */
  function OrStr(x: Val<string>, d: string): string {
    if TruthyStr(x) then x.v else d
  }

  // ---------------------------------------------------------------------------
  // Strings

  predicate StartsWith(s: string, prefix: string) {
    |prefix| <= |s| && s[..|prefix|] == prefix
  }

  /** `s.includes(sub)`. */
  predicate Includes(s: string, sub: string)
    decreases |s|
  {
    StartsWith(s, sub) || (|s| > 0 && Includes(s[1..], sub))
  }

  /** `sub` occurs in `s` at position `i`. */
  predicate OccursAt(s: string, sub: string, i: int) {
    0 <= i <= |s| - |sub| && s[i..i + |sub|] == sub
  }

  /** `s.includes(sub)` holds exactly when `sub` occurs at some position of `s`. */
  lemma {:induction false} IncludesAt(s: string, sub: string)
    ensures Includes(s, sub) <==> exists i :: OccursAt(s, sub, i)
    decreases |s|
  {
    if StartsWith(s, sub) {
      assert OccursAt(s, sub, 0);
    }
    if |s| > 0 {
      IncludesAt(s[1..], sub);
      if Includes(s[1..], sub) {
        var i :| OccursAt(s[1..], sub, i);
        assert s[i + 1..i + 1 + |sub|] == s[1..][i..i + |sub|];
        assert OccursAt(s, sub, i + 1);
      }
      if exists i :: OccursAt(s, sub, i) {
        var i :| OccursAt(s, sub, i);
        if i > 0 {
          assert s[1..][i - 1..i - 1 + |sub|] == s[i..i + |sub|];
          assert OccursAt(s[1..], sub, i - 1);
        }
      }
    } else if exists i :: OccursAt(s, sub, i) {
      var i :| OccursAt(s, sub, i);
      assert i == 0;
    }
  }

  /** Every string includes the empty string. */
  lemma IncludesEmpty(s: string)
    ensures Includes(s, "")
  {
    assert StartsWith(s, "");
  }

  /** `toLowerCase` on one character; only the ASCII letters are mapped. */
  function LowerChar(c: char): char {
    if 'A' <= c <= 'Z' then (c as int + 32) as char else c
  }

  /** `s.toLowerCase()`, ASCII letters only. */
  function Lower(s: string): (r: string)
    ensures |r| == |s|
    ensures forall i | 0 <= i < |s| :: r[i] == LowerChar(s[i])
  {
    seq(|s|, i requires 0 <= i < |s| => LowerChar(s[i]))
  }

  lemma LowerIdempotent(s: string)
    ensures Lower(Lower(s)) == Lower(s)
  {
  }

  /** JavaScript WhiteSpace and LineTerminator characters: what `trim()` removes. */
  predicate IsSpace(c: char) {
    || c == '\t' || c == '\n' || c == '\U{000B}' || c == '\U{000C}' || c == '\r' || c == ' '
    || c == '\U{00A0}' || c == '\U{1680}' || ('\U{2000}' <= c <= '\U{200A}')
    || c == '\U{2028}' || c == '\U{2029}' || c == '\U{202F}' || c == '\U{205F}'
    || c == '\U{3000}' || c == '\U{FEFF}'
  }

  function TrimStart(s: string): string
    decreases |s|
  {
    if |s| > 0 && IsSpace(s[0]) then TrimStart(s[1..]) else s
  }

  function TrimEnd(s: string): string
    decreases |s|
  {
    if |s| > 0 && IsSpace(s[|s| - 1]) then TrimEnd(s[..|s| - 1]) else s
  }

  /** `s.trim()`. */
  function Trim(s: string): string {
    TrimEnd(TrimStart(s))
  }

  predicate AllSpace(s: string) {
    forall i | 0 <= i < |s| :: IsSpace(s[i])
  }

  lemma {:induction false} TrimStartEmpty(s: string)
    ensures TrimStart(s) == "" <==> AllSpace(s)
    ensures TrimStart(s) != "" ==> !IsSpace(TrimStart(s)[0])
    decreases |s|
  {
    if |s| > 0 && IsSpace(s[0]) {
      TrimStartEmpty(s[1..]);
      if AllSpace(s[1..]) {
        forall i | 0 <= i < |s| ensures IsSpace(s[i]) {
          if i > 0 { assert s[i] == s[1..][i - 1]; }
        }
      }
      if AllSpace(s) {
        forall i | 0 <= i < |s[1..]| ensures IsSpace(s[1..][i]) {
          assert s[1..][i] == s[i + 1];
        }
      }
    }
  }

  lemma {:induction false} TrimEndKeepsNonSpaceHead(s: string)
    requires |s| > 0 && !IsSpace(s[0])
    ensures TrimEnd(s) != ""
    decreases |s|
  {
    if IsSpace(s[|s| - 1]) {
      TrimEndKeepsNonSpaceHead(s[..|s| - 1]);
    }
  }

  /** `!s.trim()` holds exactly for the strings made of white space only (the empty one included). */
  lemma BlankIffAllSpace(s: string)
    ensures Trim(s) == "" <==> AllSpace(s)
  {
    TrimStartEmpty(s);
    if TrimStart(s) != "" {
      TrimEndKeepsNonSpaceHead(TrimStart(s));
    }
  }

  /** Decimal rendering of a natural number, as template literals print `Date.now()`. */
  function NatToString(n: nat): (r: string)
    ensures |r| > 0
    decreases n
  {
    if n < 10 then [DigitChar(n)] else NatToString(n / 10) + [DigitChar(n % 10)]
  }

  function DigitChar(d: nat): char
    requires d < 10
  {
    "0123456789"[d]
  }

  // ---------------------------------------------------------------------------
  // String order (IndexedDB and Firestore list keys in ascending order)

  /** Lexicographic order on strings, character by character. */
  predicate Less(a: string, b: string)
    decreases |a|
  {
    if |a| == 0 then |b| > 0
    else |b| > 0 && (a[0] < b[0] || (a[0] == b[0] && Less(a[1..], b[1..])))
  }

  lemma {:induction false} LessIrreflexive(a: string)
    ensures !Less(a, a)
    decreases |a|
  {
    if |a| > 0 { LessIrreflexive(a[1..]); }
  }

  lemma {:induction false} LessTransitive(a: string, b: string, c: string)
    requires Less(a, b) && Less(b, c)
    ensures Less(a, c)
    decreases |a|
  {
    if |a| > 0 && a[0] == b[0] && b[0] == c[0] {
      LessTransitive(a[1..], b[1..], c[1..]);
    }
  }

  lemma {:induction false} LessTotal(a: string, b: string)
    ensures a == b || Less(a, b) || Less(b, a)
    decreases |a|
  {
    if |a| > 0 && |b| > 0 && a[0] == b[0] {
      LessTotal(a[1..], b[1..]);
      if a[1..] == b[1..] {
        assert a == [a[0]] + a[1..] && b == [b[0]] + b[1..];
      }
    }
  }

  lemma LessAsymmetric(a: string, b: string)
    requires Less(a, b)
    ensures !Less(b, a)
  {
    if Less(b, a) {
      LessTransitive(a, b, a);
      LessIrreflexive(a);
    }
  }

  /** `m` is the least key of `ks`. */
  predicate IsMin(ks: set<string>, m: string) {
    m in ks && forall k | k in ks :: k == m || Less(m, k)
  }

  /** The least element of a non-empty finite set of strings. */
  lemma {:induction false} MinExists(ks: set<string>)
    requires ks != {}
    ensures exists m :: IsMin(ks, m)
    decreases |ks|
  {
    var x :| x in ks;
    if ks - {x} == {} {
      assert ks == {x};
      assert IsMin(ks, x);
    } else {
      MinExists(ks - {x});
      var m :| IsMin(ks - {x}, m);
      LessTotal(m, x);
      if Less(m, x) {
        assert IsMin(ks, m);
      } else {
        forall k | k in ks ensures k == x || Less(x, k) {
          if k != x && k != m { LessTransitive(x, m, k); }
        }
        assert IsMin(ks, x);
      }
    }
  }

  /** A least element is unique, so `SortedKeys` is a function of its argument. */
  lemma MinUnique(ks: set<string>)
    ensures forall a, b | IsMin(ks, a) && IsMin(ks, b) :: a == b
  {
    forall a, b | IsMin(ks, a) && IsMin(ks, b) ensures a == b {
      if a != b {
        assert Less(a, b) && Less(b, a);
        LessAsymmetric(a, b);
      }
    }
  }

  /** The keys of a table in ascending order: the order in which Dexie and Firestore enumerate records. */
  function SortedKeys(ks: set<string>): (r: seq<string>)
    ensures |r| == |ks|
    ensures forall k :: k in r <==> k in ks
    ensures forall i, j | 0 <= i < j < |r| :: Less(r[i], r[j])
    decreases |ks|
  {
    if ks == {} then []
    else
      MinExists(ks);
      MinUnique(ks);
      var m :| IsMin(ks, m);
      var rest := SortedKeys(ks - {m});
      assert forall i | 0 <= i < |rest| :: rest[i] in ks - {m};
      [m] + rest
  }
}
