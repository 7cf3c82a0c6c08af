/** Properties of the checkout filter, alone and together with the transfer agent. */
module FilterProperties {
  import opened Wrappers
  import opened Store
  import opened Messages
  import opened Transfer
  import opened CheckoutFilter

  const VersionLine: string := "version https://git-lfs.github.com/spec/v1"

  /** A pointer record as the version-control system writes it. */
  function PointerText(oid: string, size: string): string {
    VersionLine + "\n" + (OidPrefix + oid) + "\n" + ("size " + size + "\n")
  }

  predicate IsHexDigit(c: char) {
    '0' <= c <= '9' || 'a' <= c <= 'f'
  }

  predicate IsHex(s: string) {
    forall i :: 0 <= i < |s| ==> IsHexDigit(s[i])
  }

  lemma StripKeeps(s: string)
    requires s != [] && !IsSpace(s[0]) && !IsSpace(s[|s| - 1])
    ensures Strip(s) == s
  {
    assert LeadingSpaces(s) == 0;
    assert s[0..] == s;
  }

  /** The OID line of a pointer gives back exactly the hexadecimal OID. */
  lemma OidLineField(oid: string)
    requires IsHex(oid)
    ensures OidField(OidPrefix + oid) == oid
  {
    var line := OidPrefix + oid;
    assert line[0] == 'o';
    assert line[|line| - 1] == ':' || line[|line| - 1] == oid[|oid| - 1];
    StripKeeps(line);
    forall k | 11 <= k && k + |Tag| <= |line| ensures !Occurs(line, Tag, k) {
      assert line[k + 6] == oid[k - 5];
      assert line[k..k + |Tag|][6] == line[k + 6];
    }
    var r := OidField(line);
    assert r == line[11..];
  }

  lemma VersionLineUnbroken()
    ensures NoBreak(VersionLine)
    ensures !IsOidLine(VersionLine)
  {
    assert VersionLine[0] != OidPrefix[0];
  }

  lemma OidLineUnbroken(oid: string)
    requires IsHex(oid)
    ensures NoBreak(OidPrefix + oid)
  {
    var line := OidPrefix + oid;
    forall i | 0 <= i < |line| ensures !IsLineBreak(line[i]) {
      if i >= |OidPrefix| {
        assert line[i] == oid[i - |OidPrefix|];
      }
    }
  }

  /** The filter finds the OID of a well-formed pointer, whatever its size line says. */
  lemma PointerYieldsOid(oid: string, size: string)
    requires IsHex(oid)
    ensures ExtractOid(PointerText(oid, size)) == Some(oid)
  {
    var line, rest := OidPrefix + oid, "size " + size + "\n";
    VersionLineUnbroken();
    OidLineUnbroken(oid);
    assert PointerText(oid, size) == VersionLine + "\n" + (line + "\n" + rest);
    ExtractOidCons(VersionLine, "\n", line + "\n" + rest);
    ExtractOidCons(line, "\n", rest);
    OidLineField(oid);
  }

  /** With the toggle off, a pointer whose blob sits at the flat location is
      replaced by that blob, and nothing goes to the error stream. */
  lemma PointerResolvesToFlatBlob(oid: string, size: string, skipSmudge: Option<string>, files: Files)
    requires IsHex(oid) && oid != "" && !Bypassed(skipSmudge) && FlatPath(oid) in files
    ensures Smudge(PointerText(oid, size), skipSmudge, files) == Emitted(Blob(files[FlatPath(oid)]), "")
  {
    PointerYieldsOid(oid, size);
  }

  /** In bypass mode the output is the input, whatever the store holds. */
  lemma BypassIgnoresStore(input: string, files1: Files, files2: Files)
    ensures Smudge(input, Some("1"), files1) == Smudge(input, Some("1"), files2) == Emitted(Text(input), "")
  {
  }

  /** The agent stores an upload at the sharded location only, and the filter looks
      at the flat location only: an object the agent has just uploaded is not found
      by the filter unless a flat copy already existed. */
  lemma UploadedObjectMissedByFilter(files: Files, oid: string, source: string, size: string)
    requires IsHex(oid) && oid != ""
    requires ParsePath(source) in files && FlatPath(oid) !in files
    ensures var up := Upload(files, oid, source, NoFault);
      && up.reply == Some(Complete(oid, None))
      && Smudge(PointerText(oid, size), None, up.files)
         == Emitted(Text(PointerText(oid, size)), "Missing object: " + oid + "\n")
  {
    assert PlainName(oid) by {
      assert IsHexDigit(oid[0]);
    }
    ShardedIsNotFlat(oid);
    var up := Upload(files, oid, source, NoFault);
    assert FlatPath(oid) !in files - {StorePath(oid)};
    assert FlatPath(oid) !in up.files;
    PointerYieldsOid(oid, size);
  }
}
