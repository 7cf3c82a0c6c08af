/** The checkout ("smudge") filter: given a pointer record, print the blob it names
    from the flat location of the store, or, failing that, the pointer itself. */
module CheckoutFilter {
  import opened Wrappers
  import opened Store
  import opened Messages
  import opened Transfer

  /** The characters at which Python's `str.splitlines` breaks a line. */
  predicate IsLineBreak(c: char) {
    c in {'\n', '\r', '\U{B}', '\U{C}', '\U{1C}', '\U{1D}', '\U{1E}', '\U{85}', '\U{2028}', '\U{2029}'}
  }

  /** The characters Python's `str.strip` removes (those for which `str.isspace` holds). */
  predicate IsSpace(c: char) {
    || c in {'\t', '\n', '\U{B}', '\U{C}', '\r', '\U{1C}', '\U{1D}', '\U{1E}', '\U{1F}', ' '}
    || c in {'\U{85}', '\U{A0}', '\U{1680}', '\U{2028}', '\U{2029}', '\U{202F}', '\U{205F}', '\U{3000}'}
    || ('\U{2000}' <= c <= '\U{200A}')
  }

  predicate NoBreak(s: string) {
    forall i :: 0 <= i < |s| ==> !IsLineBreak(s[i])
  }

  /** Index of the first line break in s, or |s| when there is none. */
  function BreakIndex(s: string): (i: nat)
    ensures i <= |s|
    ensures NoBreak(s[..i])
    ensures i < |s| ==> IsLineBreak(s[i])
  {
    if s == [] || IsLineBreak(s[0]) then 0
    else
      var j := BreakIndex(s[1..]);
      assert s[..j + 1] == [s[0]] + s[1..][..j];
      j + 1
  }

  /** Python's `str.splitlines()`: "\r\n" is one break, and a final break does not
      start an empty last line. */
  function SplitLines(s: string): (lines: seq<string>)
    ensures forall k :: 0 <= k < |lines| ==> NoBreak(lines[k])
    ensures lines == [] <==> s == ""
    decreases |s|
  {
    var i := BreakIndex(s);
    if i == |s| then (if s == "" then [] else [s])
    else
      var width := if s[i] == '\r' && i + 1 < |s| && s[i + 1] == '\n' then 2 else 1;
      [s[..i]] + SplitLines(s[i + width..])
  }

  /** sep ends a line that rest follows: "\r\n", or any single break character,
      except a "\r" right before "\n" (that pair is one break). */
  predicate LineEnd(sep: string, rest: string) {
    || sep == "\r\n"
    || (|sep| == 1 && IsLineBreak(sep[0]) && (sep[0] == '\r' ==> rest == [] || rest[0] != '\n'))
  }

  /** A line without breaks, then a line end, is split off as the first line. */
  lemma SplitLinesCons(a: string, sep: string, rest: string)
    requires NoBreak(a) && LineEnd(sep, rest)
    ensures SplitLines(a + sep + rest) == [a] + SplitLines(rest)
  {
    var s := a + sep + rest;
    assert s[|a|] == sep[0];
    assert forall k :: 0 <= k < |a| ==> s[k] == a[k];
    FirstBreak(s, |a|);
    var i := BreakIndex(s);
    assert s[..i] == a;
    if sep == "\r\n" {
      assert s[i + 1] == '\n';
      assert s[i + 2..] == rest;
    } else {
      assert s[i + 1..] == rest;
    }
  }

  /** A non-empty text without breaks is a single line. */
  lemma SplitLinesLast(a: string)
    requires NoBreak(a) && a != ""
    ensures SplitLines(a) == [a]
  {
    assert BreakIndex(a) == |a|;
  }

  /** A break at n with none before it is the first break. */
  lemma FirstBreak(s: string, n: nat)
    requires n < |s| && IsLineBreak(s[n])
    requires forall k :: 0 <= k < n ==> !IsLineBreak(s[k])
    ensures BreakIndex(s) == n
  {
    var i := BreakIndex(s);
    assert forall k :: 0 <= k < i ==> !IsLineBreak(s[k]) by {
      forall k | 0 <= k < i ensures !IsLineBreak(s[k]) {
        assert s[..i][k] == s[k];
      }
    }
  }

  predicate Spaces(s: string) {
    forall k :: 0 <= k < |s| ==> IsSpace(s[k])
  }

  /** The number of whitespace characters `str.lstrip()` removes: all of them are
      whitespace, and the character after them, if any, is not. */
  function LeadingSpaces(s: string): (n: nat)
    ensures n <= |s| && Spaces(s[..n])
    ensures n == |s| || !IsSpace(s[n])
  {
    if s != [] && IsSpace(s[0]) then
      var n := LeadingSpaces(s[1..]);
      assert s[..n + 1] == [s[0]] + s[1..][..n];
      n + 1
    else 0
  }

  /** Python's `str.rstrip()`: the longest all-space suffix is removed. */
  function TrimEnd(s: string): (r: string)
    ensures r <= s
    ensures Spaces(s[|r|..])
    ensures r == [] || !IsSpace(r[|r| - 1])
  {
    if s != [] && IsSpace(s[|s| - 1]) then
      var r := TrimEnd(s[..|s| - 1]);
      assert s[|r|..] == s[..|s| - 1][|r|..] + [s[|s| - 1]];
      r
    else s
  }

  /** Python's `str.strip()`: the text between the leading and the trailing
      whitespace, which neither starts nor ends with whitespace. */
  function Strip(s: string): (r: string)
    ensures var i := LeadingSpaces(s);
      && i + |r| <= |s|
      && r == s[i..i + |r|]
      && Spaces(s[i + |r|..])
    ensures r == [] || (!IsSpace(r[0]) && !IsSpace(r[|r| - 1]))
  {
    var i := LeadingSpaces(s);
    var r := TrimEnd(s[i..]);
    assert s[i..][|r|..] == s[i + |r|..];
    r
  }

  /** Trimming the end never cuts into a prefix that ends in a non-space. */
  lemma {:induction false} TrimEndKeeps(s: string, n: nat)
    requires 0 < n <= |s| && !IsSpace(s[n - 1])
    ensures n <= |TrimEnd(s)|
    decreases |s|
  {
    if IsSpace(s[|s| - 1]) {
      TrimEndKeeps(s[..|s| - 1], n);
    }
  }

  /** sep occurs in s at index k. */
  predicate Occurs(s: string, sep: string, k: nat) {
    k + |sep| <= |s| && s[k..k + |sep|] == sep
  }

  /** The first index at or after `from` where sep occurs in s. */
  function Find(s: string, sep: string, from: nat): (r: Option<nat>)
    requires |sep| > 0
    ensures r.Some? ==> from <= r.value && Occurs(s, sep, r.value)
    ensures r.Some? ==> forall k :: from <= k < r.value ==> !Occurs(s, sep, k)
    ensures r.None? ==> forall k :: from <= k ==> !Occurs(s, sep, k)
    decreases |s| - from
  {
    if from + |sep| > |s| then None
    else if s[from..from + |sep|] == sep then Some(from)
    else Find(s, sep, from + 1)
  }

  /** Python's `s.split(sep)[1]`: the text between the first and the second
      occurrence of sep, or up to the end; None where Python raises IndexError. */
  function SecondPiece(s: string, sep: string): (r: Option<string>)
    requires |sep| > 0
    ensures r.None? <==> forall k :: !Occurs(s, sep, k)
    ensures r.Some? ==> Find(s, sep, 0).Some?
    ensures r.Some? ==>
      var j := Find(s, sep, 0).value + |sep|;
      && j + |r.value| <= |s|
      && r.value == s[j..j + |r.value|]
      && (j + |r.value| == |s| || Occurs(s, sep, j + |r.value|))
      && forall k :: j <= k < j + |r.value| ==> !Occurs(s, sep, k)
  {
    match Find(s, sep, 0)
    case None => None
    case Some(i) =>
      var j := i + |sep|;
      Some(s[j..Find(s, sep, j).GetOr(|s|)])
  }

  const OidPrefix: string := "oid sha256:"
  const Tag: string := "sha256:"

  /** Stripping a line that starts with the OID prefix keeps the prefix, and the
      first tag of the stripped line is the one inside the prefix. */
  lemma TagInPrefix(line: string)
    requires OidPrefix <= line
    ensures OidPrefix <= Strip(line)
    ensures Find(Strip(line), Tag, 0) == Some(4)
  {
    assert line[0] == 'o' && !IsSpace(line[0]);
    assert LeadingSpaces(line) == 0;
    assert line[0..] == line;
    assert line[10] == ':' && !IsSpace(line[10]);
    TrimEndKeeps(line, 11);
    var t := Strip(line);
    assert t[..11] == line[..11] == OidPrefix;
    assert Occurs(t, Tag, 4) by { assert t[4..11] == Tag; }
    assert t[0] == 'o' && t[1] == 'i' && t[2] == 'd' && t[3] == ' ';
    assert forall k :: 0 <= k < 4 ==> !Occurs(t, Tag, k);
  }

  /** `line.strip().split("sha256:")[1]` on a line that starts with the OID
      prefix: the text after the prefix, up to the next tag or the end of the
      stripped line. */
  function OidField(line: string): (r: string)
    requires OidPrefix <= line
    ensures var t := Strip(line);
      && |OidPrefix| + |r| <= |t|
      && r == t[|OidPrefix|..|OidPrefix| + |r|]
      && (|OidPrefix| + |r| == |t| || Occurs(t, Tag, |OidPrefix| + |r|))
      && forall k :: |OidPrefix| <= k < |OidPrefix| + |r| ==> !Occurs(t, Tag, k)
  {
    TagInPrefix(line);
    SecondPiece(Strip(line), Tag).value
  }

  predicate IsOidLine(line: string) {
    OidPrefix <= line
  }

  /** The loop of `extract_oid_from_pointer`, as a search: the index of the first
      line that starts with the OID prefix, or |lines| when none does. */
  function FirstOidLine(lines: seq<string>): (i: nat)
    ensures i <= |lines|
    ensures forall j :: 0 <= j < i ==> !IsOidLine(lines[j])
    ensures i < |lines| ==> IsOidLine(lines[i])
  {
    if lines == [] || IsOidLine(lines[0]) then 0
    else
      var i := FirstOidLine(lines[1..]);
      assert forall j :: 1 <= j <= i ==> lines[j] == lines[1..][j - 1];
      i + 1
  }

  /** The loop's result: the field of the first line that starts with the OID
      prefix, or None when no line does; later lines are ignored. */
  function FirstOid(lines: seq<string>): (r: Option<string>)
    ensures r.None? <==> forall k :: 0 <= k < |lines| ==> !IsOidLine(lines[k])
    ensures r.Some? ==> exists k ::
      && 0 <= k < |lines|
      && IsOidLine(lines[k])
      && r.value == OidField(lines[k])
      && forall j :: 0 <= j < k ==> !IsOidLine(lines[j])
  {
    var i := FirstOidLine(lines);
    if i < |lines| then Some(OidField(lines[i])) else None
  }

  /** `extract_oid_from_pointer`: on a single line, its field when it starts with
      the OID prefix and nothing otherwise; see ExtractOidCons for longer texts. */
  function ExtractOid(data: string): (r: Option<string>)
    ensures data == "" ==> r.None?
    ensures NoBreak(data) ==> r == if IsOidLine(data) then Some(OidField(data)) else None
  {
    assert NoBreak(data) && data != "" ==> SplitLines(data) == [data] by {
      if NoBreak(data) && data != "" {
        SplitLinesLast(data);
      }
    }
    FirstOid(SplitLines(data))
  }

  /** The first line decides when it starts with the OID prefix; otherwise the
      search goes on with the text after its line end. */
  lemma ExtractOidCons(a: string, sep: string, rest: string)
    requires NoBreak(a) && LineEnd(sep, rest)
    ensures ExtractOid(a + sep + rest) == if IsOidLine(a) then Some(OidField(a)) else ExtractOid(rest)
  {
    SplitLinesCons(a, sep, rest);
    var lines := [a] + SplitLines(rest);
    assert lines[1..] == SplitLines(rest);
  }

  /** What the filter writes to standard output: text, or a blob's raw bytes. */
  datatype Payload = Text(text: string) | Blob(bytes: Bytes)

  /** Everything one run of the filter writes. */
  datatype Emitted = Emitted(stdout: Payload, stderr: string)

  const NoOidMessage: string := "No OID found in pointer file.\n"

  function MissingMessage(oid: string): string {
    "Missing object: " + oid + "\n"
  }

  /** The bypass toggle: on only when set to exactly "1"; unset reads as "0". */
  predicate Bypassed(skipSmudge: Option<string>): (b: bool)
    ensures b <==> skipSmudge == Some("1")
  {
    skipSmudge.GetOr("0") == "1"
  }

  /** `main` of the filter, given standard input, the toggle and the store. */
  function Smudge(input: string, skipSmudge: Option<string>, files: Files): (e: Emitted)
    ensures Bypassed(skipSmudge) ==> e == Emitted(Text(input), "")
    ensures !Bypassed(skipSmudge) && (ExtractOid(input).None? || ExtractOid(input) == Some("")) ==>
      e == Emitted(Text(input), NoOidMessage)
    ensures !Bypassed(skipSmudge) && ExtractOid(input).Some? && ExtractOid(input) != Some("") ==>
      var oid := ExtractOid(input).value;
      e == if FlatPath(oid) in files then Emitted(Blob(files[FlatPath(oid)]), "")
           else Emitted(Text(input), MissingMessage(oid))
    ensures e.stdout == Text(input) || exists oid :: FlatPath(oid) in files && e.stdout == Blob(files[FlatPath(oid)])
    ensures e.stderr == "" <==> Bypassed(skipSmudge) || e.stdout.Blob?
  {
    if Bypassed(skipSmudge) then Emitted(Text(input), "")
    else
      match ExtractOid(input)
      case None => Emitted(Text(input), NoOidMessage)
      case Some(oid) =>
        if oid == "" then Emitted(Text(input), NoOidMessage)
        else if FlatPath(oid) in files then Emitted(Blob(files[FlatPath(oid)]), "")
        else Emitted(Text(input), MissingMessage(oid))
  }
}
