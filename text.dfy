/** The string setters the Mongoose schemas declare: `trim` (JavaScript's
    `String.prototype.trim`) and `lowercase` (`toLowerCase`, here on the
    ASCII letters only). */
module Text {
  import opened Common

  /** The code points `trim` removes: ECMAScript WhiteSpace and LineTerminator. */
  predicate IsSpace(c: char) {
    var n := c as int;
    n == 0x09 || n == 0x0A || n == 0x0B || n == 0x0C || n == 0x0D || n == 0x20
    || n == 0xA0 || n == 0x1680 || (0x2000 <= n <= 0x200A) || n == 0x2028
    || n == 0x2029 || n == 0x202F || n == 0x205F || n == 0x3000 || n == 0xFEFF
  }

  /** Neither end of `s` is whitespace. */
  predicate IsTrimmed(s: string) {
    s == [] || (!IsSpace(s[0]) && !IsSpace(s[|s| - 1]))
  }

  /** `s` without its leading whitespace. */
  function TrimStart(s: string): (r: string)
    ensures |r| <= |s| && r == s[|s| - |r|..]
    ensures forall k :: 0 <= k < |s| - |r| ==> IsSpace(s[k])
    ensures r == [] || !IsSpace(r[0])
    decreases |s|
  {
    if s != [] && IsSpace(s[0]) then TrimStart(s[1..]) else s
  }

  /** `s` without its trailing whitespace. */
  function TrimEnd(s: string): (r: string)
    ensures |r| <= |s| && r == s[..|r|]
    ensures forall k :: |r| <= k < |s| ==> IsSpace(s[k])
    ensures r == [] || !IsSpace(r[|r| - 1])
    decreases |s|
  {
    if s != [] && IsSpace(s[|s| - 1]) then TrimEnd(s[..|s| - 1]) else s
  }

  /** How much leading whitespace `Trim` drops. */
  function LeadingSpace(s: string): nat {
    |s| - |TrimStart(s)|
  }

  /** `s` with whitespace removed from both ends, and nothing else removed:
      what is left is a stretch of `s` with only whitespace on either side. */
  function Trim(s: string): (r: string)
    ensures IsTrimmed(r)
    ensures LeadingSpace(s) + |r| <= |s|
    ensures r == s[LeadingSpace(s)..LeadingSpace(s) + |r|]
    ensures forall k :: 0 <= k < LeadingSpace(s) ==> IsSpace(s[k])
    ensures forall k :: LeadingSpace(s) + |r| <= k < |s| ==> IsSpace(s[k])
  {
    TrimEndSpaces(s);
    TrimEnd(TrimStart(s))
  }

  /** What `TrimEnd` drops from the trimmed start of `s` is whitespace of `s`. */
  lemma TrimEndSpaces(s: string)
    ensures var t := TrimStart(s);
            forall k :: |s| - |t| + |TrimEnd(t)| <= k < |s| ==> IsSpace(s[k])
  {
    var t := TrimStart(s);
    var a := |s| - |t|;
    var r := TrimEnd(t);
    forall k | a + |r| <= k < |s| ensures IsSpace(s[k]) {
      assert s[k] == t[k - a];
    }
  }

  /** A string with no whitespace at either end is its own trim. */
  lemma TrimOfTrimmed(s: string)
    requires IsTrimmed(s)
    ensures Trim(s) == s
  {
  }

  /** Trimming twice is trimming once. */
  lemma TrimIdempotent(s: string)
    ensures Trim(Trim(s)) == Trim(s)
  {
    TrimOfTrimmed(Trim(s));
  }

  function LowerChar(c: char): (d: char)
    ensures 'A' <= c <= 'Z' ==> d as int == c as int + 32
    ensures !('A' <= c <= 'Z') ==> d == c
  {
    if 'A' <= c <= 'Z' then (c as int + 32) as char else c
  }

  /** `s` with every ASCII capital replaced by its small letter. */
  function ToLower(s: string): (r: string)
    ensures |r| == |s|
    ensures forall i :: 0 <= i < |s| ==> r[i] == LowerChar(s[i])
    ensures forall i :: 0 <= i < |r| ==> !('A' <= r[i] <= 'Z')
  {
    seq(|s|, i requires 0 <= i < |s| => LowerChar(s[i]))
  }

  lemma {:induction false} TrimStartLower(s: string)
    ensures TrimStart(ToLower(s)) == ToLower(TrimStart(s))
    decreases |s|
  {
    if s != [] {
      assert IsSpace(ToLower(s)[0]) == IsSpace(s[0]);
      assert ToLower(s)[1..] == ToLower(s[1..]);
      TrimStartLower(s[1..]);
    }
  }

  lemma {:induction false} TrimEndLower(s: string)
    ensures TrimEnd(ToLower(s)) == ToLower(TrimEnd(s))
    decreases |s|
  {
    if s != [] {
      assert IsSpace(ToLower(s)[|s| - 1]) == IsSpace(s[|s| - 1]);
      assert ToLower(s)[..|s| - 1] == ToLower(s[..|s| - 1]);
      TrimEndLower(s[..|s| - 1]);
    }
  }

  /** Lowercasing changes no whitespace, so the order of the two setters
      does not matter. */
  lemma LowerTrimCommute(s: string)
    ensures Trim(ToLower(s)) == ToLower(Trim(s))
  {
    TrimStartLower(s);
    TrimEndLower(TrimStart(s));
  }

  /** No ASCII capital letter occurs in `s`. */
  predicate IsLower(s: string) {
    forall i :: 0 <= i < |s| ==> !('A' <= s[i] <= 'Z')
  }

  /** The stored form of an e-mail address: lowercased and trimmed. */
  function NormalizeEmail(s: string): (e: string)
    ensures IsTrimmed(e) && IsLower(e)
  {
    var l := ToLower(s);
    var e := Trim(l);
    assert forall i :: 0 <= i < |e| ==> e[i] == l[LeadingSpace(l) + i];
    e
  }

  /** The stored address is the given address, trimmed and lowercased. */
  lemma NormalizeEmailOf(s: string)
    ensures NormalizeEmail(s) == ToLower(Trim(s))
  {
    LowerTrimCommute(s);
  }

  /** A lowercase string without surrounding whitespace is its own normal
      form, so normal forms are exactly the trimmed lowercase strings. */
  lemma NormalizeEmailFixes(s: string)
    requires IsTrimmed(s) && IsLower(s)
    ensures NormalizeEmail(s) == s
  {
    assert ToLower(s) == s;
    TrimOfTrimmed(s);
  }

  /** A normalised address is its own normal form. */
  lemma NormalizeEmailIdempotent(s: string)
    ensures NormalizeEmail(NormalizeEmail(s)) == NormalizeEmail(s)
  {
    NormalizeEmailFixes(NormalizeEmail(s));
  }

  /** The `trim` setter on an optional string path. */
  function TrimField(f: Option<string>): (r: Option<string>)
    ensures r.Some? <==> f.Some?
    ensures r.Some? ==> r.value == Trim(f.value)
  {
    match f
    case None => None
    case Some(s) => Some(Trim(s))
  }

  /** Mongoose's `required` on a string path rejects undefined and "". */
  predicate Present(f: Option<string>) {
    f.Some? && f.value != []
  }
}
