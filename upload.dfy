/** The disk-storage naming rule for uploaded receipts and the per-file size
    limit (backend/middleware/upload.js). JavaScript strings are sequences of
    UTF-16 code units and the replacing pattern has no `u` flag, so the name is
    sanitised unit by unit. */
module Upload {
  import opened Common

  /** `limits.fileSize`: 5 MB per file. */
  const MaxFileSize: nat := 5 * 1024 * 1024

  /** Multer accepts a file of at most `MaxFileSize` bytes. */
  predicate WithinLimit(size: nat)
  {
    size <= MaxFileSize
  }

  /** A UTF-16 code unit. */
  type CodeUnit = x: int | 0 <= x < 0x1_0000

  const Underscore: CodeUnit := '_' as int

  /** The class `[a-zA-Z0-9_.-]`. */
  predicate Allowed(u: CodeUnit)
  {
    ('a' as int <= u <= 'z' as int) || ('A' as int <= u <= 'Z' as int)
    || ('0' as int <= u <= '9' as int)
    || u == '_' as int || u == '.' as int || u == '-' as int
  }

  predicate AllAllowed(s: seq<CodeUnit>)
  {
    forall i :: 0 <= i < |s| ==> Allowed(s[i])
  }

  /** `originalname.replace(/[^a-zA-Z0-9_.-]/g, "_")` */
  function Sanitize(name: seq<CodeUnit>): seq<CodeUnit>
    decreases |name|
  {
    if name == [] then []
    else [if Allowed(name[0]) then name[0] else Underscore] + Sanitize(name[1..])
  }

  /** Each unit of the result is the original unit when that one is allowed and
      an underscore otherwise, and the length is unchanged. */
  lemma {:induction false} SanitizeUnitwise(name: seq<CodeUnit>)
    ensures |Sanitize(name)| == |name|
    ensures forall i :: 0 <= i < |name| ==>
      Sanitize(name)[i] == if Allowed(name[i]) then name[i] else Underscore
    decreases |name|
  {
    if name != [] {
      SanitizeUnitwise(name[1..]);
    }
  }

  /** Only allowed units come out. */
  lemma SanitizeAllowedOnly(name: seq<CodeUnit>)
    ensures AllAllowed(Sanitize(name))
  {
    SanitizeUnitwise(name);
  }

  /** A name is left as it is exactly when all its units are allowed. */
  lemma SanitizeFixedPoints(name: seq<CodeUnit>)
    ensures Sanitize(name) == name <==> AllAllowed(name)
  {
    SanitizeUnitwise(name);
    if !AllAllowed(name) {
      var i :| 0 <= i < |name| && !Allowed(name[i]);
      assert Sanitize(name)[i] != name[i];
    }
  }

  /** Sanitising twice is sanitising once. */
  lemma SanitizeIdempotent(name: seq<CodeUnit>)
    ensures Sanitize(Sanitize(name)) == Sanitize(name)
  {
    SanitizeAllowedOnly(name);
    SanitizeFixedPoints(Sanitize(name));
  }

  // ---------------------------------------------------------------------------
  // UTF-16

  /** The UTF-16 code units of one Unicode scalar value. */
  function Utf16Char(c: char): (r: seq<CodeUnit>)
    ensures |r| == (if c as int < 0x1_0000 then 1 else 2)
  {
    if c as int < 0x1_0000 then [c as int]
    else
      var v := c as int - 0x1_0000;
      [0xD800 + v / 0x400, 0xDC00 + v % 0x400]
  }

  /** A JavaScript string holding the text `s`. */
  function Utf16(s: string): seq<CodeUnit>
    decreases |s|
  {
    if s == [] then [] else Utf16Char(s[0]) + Utf16(s[1..])
  }

  /** A character outside the Basic Multilingual Plane (an emoji, say) turns
      into two underscores, one per surrogate. */
  lemma AstralCharBecomesTwoUnderscores(c: char)
    requires c as int >= 0x1_0000
    ensures Sanitize(Utf16([c])) == [Underscore, Underscore]
  {
    var u := Utf16Char(c);
    assert [c][1..] == [];
    assert Utf16([c]) == u + [];
    assert u + [] == u;
    assert 0xD800 <= u[0] && 0xDC00 <= u[1];
    assert Sanitize(u[1..]) == [Underscore] + Sanitize(u[1..][1..]);
    assert u[1..][1..] == [];
  }

  // ---------------------------------------------------------------------------
  // the stored name

  /** The text of an ASCII code-unit sequence. */
  function AsciiText(units: seq<CodeUnit>): (s: string)
    requires AllAllowed(units)
    ensures |s| == |units|
    ensures forall i :: 0 <= i < |s| ==> s[i] as int == units[i]
  {
    seq(|units|, i requires 0 <= i < |units| => units[i] as char)
  }

  /** The `filename` callback: `${Date.now()}-${safeName}`. */
  function StoredFilename(timestamp: nat, originalName: seq<CodeUnit>): string
  {
    SanitizeAllowedOnly(originalName);
    Decimal(timestamp) + "-" + AsciiText(Sanitize(originalName))
  }

  /** The stored name is the timestamp, a dash, then a name as long as the
      original (in code units) made only of `[a-zA-Z0-9_.-]`; the timestamp is
      the text before the first dash. */
  lemma StoredFilenameShape(timestamp: nat, originalName: seq<CodeUnit>)
    ensures var f := StoredFilename(timestamp, originalName);
      var k := |Decimal(timestamp)|;
      && |f| == k + 1 + |originalName|
      && f[k] == '-'
      && AllDigits(f[..k]) && DigitsValue(f[..k]) == timestamp
      && Split(f, "-")[0] == Decimal(timestamp)
      && forall i :: k < i < |f| ==> Allowed(f[i] as int)
  {
    var f := StoredFilename(timestamp, originalName);
    var d := Decimal(timestamp);
    SanitizeUnitwise(originalName);
    SanitizeAllowedOnly(originalName);
    var rest := AsciiText(Sanitize(originalName));
    assert f == d + "-" + rest;
    assert f[..|d|] == d;
    DecimalRoundTrip(timestamp);
    assert forall i :: 0 <= i < |d| ==> IsDigit(d[i]);
    assert '-' !in d;
    SplitAtFirst(d, "-", rest);
    forall i | |d| < i < |f| ensures Allowed(f[i] as int) {
      assert f[i] == rest[i - |d| - 1];
    }
  }
}
