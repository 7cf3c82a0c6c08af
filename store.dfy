/** Paths as Python's pathlib sees them, and the on-disk layout of the
    content-addressable store that the transfer agent and the checkout filter share. */
module Store {

  /** File contents. */
  type Bytes = seq<bv8>

  /** A path is the sequence of its pathlib parts: an absolute path starts with
      the anchor "/", every other part is a name (see PlainName). */
  type Path = seq<string>

  /** The filesystem, abstracted to the files it holds; directories are implicit. */
  type Files = map<Path, Bytes>

  const Anchor: string := "/"

  /** A part that pathlib keeps as it is: not empty, not ".", no separator. */
  predicate PlainName(c: string) {
    c != "" && c != "." && '/' !in c
  }

  predicate WellFormed(p: Path) {
    forall i :: 0 <= i < |p| ==> PlainName(p[i]) || (i == 0 && p[i] == Anchor)
  }

  /** Index of the first '/' in s, or |s| when there is none. */
  function SlashIndex(s: string): (i: nat)
    ensures i <= |s|
    ensures '/' !in s[..i]
    ensures i < |s| ==> s[i] == '/'
  {
    if s == [] || s[0] == '/' then 0
    else
      var j := SlashIndex(s[1..]);
      assert s[..j + 1] == [s[0]] + s[1..][..j];
      j + 1
  }

  /** The first '/' of `a + "/" + t`, when a holds none, is the one after a. */
  lemma SlashIndexAfterName(a: string, t: string)
    requires '/' !in a
    ensures SlashIndex(a + "/" + t) == |a|
  {
    var s := a + "/" + t;
    assert s[|a|] == '/';
    assert forall k :: 0 <= k < |a| ==> s[k] == a[k];
  }

  /** The names of a relative path string: split at '/', dropping "" and ".". */
  function Components(s: string): (ps: seq<string>)
    ensures forall k :: 0 <= k < |ps| ==> PlainName(ps[k])
    ensures '/' !in s ==> ps == if PlainName(s) then [s] else []
    decreases |s|
  {
    var i := SlashIndex(s);
    assert '/' !in s ==> i == |s| && s[..i] == s;
    var head := if PlainName(s[..i]) then [s[..i]] else [];
    if i == |s| then head else head + Components(s[i + 1..])
  }

  /** pathlib's `Path(s)`. */
  function ParsePath(s: string): (p: Path)
    ensures WellFormed(p)
  {
    if |s| > 0 && s[0] == '/' then [Anchor] + Components(s) else Components(s)
  }

  /** pathlib's `p / c`: an absolute c replaces p, otherwise its names are appended. */
  function Join(p: Path, c: string): (q: Path)
    ensures WellFormed(p) ==> WellFormed(q)
    ensures PlainName(c) ==> q == p + [c]
  {
    if |c| > 0 && c[0] == '/' then ParsePath(c) else p + Components(c)
  }

  function JoinNames(ps: seq<string>): string {
    if ps == [] then ""
    else if |ps| == 1 then ps[0]
    else ps[0] + "/" + JoinNames(ps[1..])
  }

  /** pathlib's `str(p)`: "." for the empty path, and the text of a well-formed
      path starts with "/" exactly when the path is absolute. */
  function Render(p: Path): (r: string)
    ensures p == [] ==> r == "."
    ensures WellFormed(p) && p != [] ==> r != "" && (r[0] == '/' <==> p[0] == Anchor)
  {
    if p == [] then "."
    else if p[0] == Anchor then "/" + JoinNames(p[1..])
    else
      assert WellFormed(p) ==> JoinNames(p) != "" && JoinNames(p)[0] != '/' by {
        if WellFormed(p) {
          JoinNamesStart(p);
          assert p[0][0] in p[0];
        }
      }
      JoinNames(p)
  }

  lemma {:induction false} ComponentsOfJoinNames(ps: seq<string>)
    requires forall k :: 0 <= k < |ps| ==> PlainName(ps[k])
    ensures Components(JoinNames(ps)) == ps
  {
    if ps == [] {
      assert Components("") == [];
    } else if |ps| == 1 {
      assert SlashIndex(ps[0]) == |ps[0]|;
      assert ps[0][..|ps[0]|] == ps[0];
    } else {
      var a, t := ps[0], JoinNames(ps[1..]);
      var s := a + "/" + t;
      SlashIndexAfterName(a, t);
      assert s[..|a|] == a;
      assert s[|a| + 1..] == t;
      ComponentsOfJoinNames(ps[1..]);
    }
  }

  /** Parsing what `str(p)` prints gives back p: the text of a path names that path. */
  lemma RenderParses(p: Path)
    requires WellFormed(p)
    ensures ParsePath(Render(p)) == p
  {
    if p == [] {
      assert SlashIndex(".") == 1;
    } else if p[0] == Anchor {
      RenderParsesAbsolute(p);
    } else {
      ComponentsOfJoinNames(p);
      JoinNamesStart(p);
    }
  }

  lemma RenderParsesAbsolute(p: Path)
    requires WellFormed(p) && p != [] && p[0] == Anchor
    ensures ParsePath(Render(p)) == p
  {
    var names := p[1..];
    assert p == [Anchor] + names;
    var t := JoinNames(names);
    assert Components(t) == names by {
      forall k | 0 <= k < |names| ensures PlainName(names[k]) {
        assert names[k] == p[k + 1];
      }
      ComponentsOfJoinNames(names);
    }
    var s := "/" + t;
    assert Render(p) == s;
    assert Components(s) == Components(t) by {
      assert SlashIndex(s) == 0;
      assert s[1..] == t;
      assert s[..0] == "";
    }
  }

  lemma JoinNamesStart(ps: seq<string>)
    requires |ps| > 0 && PlainName(ps[0])
    ensures JoinNames(ps) != "" && JoinNames(ps)[0] == ps[0][0]
  {
    if |ps| > 1 {
      assert JoinNames(ps) == ps[0] + ("/" + JoinNames(ps[1..]));
    }
  }

  /** Python's `s[lo:hi]` for 0 <= lo <= hi: both ends are clamped to the length. */
  function Slice(s: string, lo: nat, hi: nat): (r: string)
    requires lo <= hi
    ensures |r| <= hi - lo
    ensures hi <= |s| ==> r == s[lo..hi]
    ensures r <= s[if lo <= |s| then lo else |s|..]
    ensures lo <= |s| <= hi ==> r == s[lo..]
    ensures |s| <= lo ==> r == ""
  {
    var a := if lo <= |s| then lo else |s|;
    var b := if hi <= |s| then hi else |s|;
    s[a..b]
  }

  /** The storage root of the blob store. */
  const StorageRoot: Path := ["/", "tmp", "lfs_storage"]

  /** The version-control system's local object cache, relative to the working directory. */
  const ObjectCache: Path := [".git", "lfs", "objects"]

  /** `base / oid[:2] / oid[2:4] / oid`. */
  function Sharded(base: Path, oid: string): Path {
    Join(Join(Join(base, Slice(oid, 0, 2)), Slice(oid, 2, 4)), oid)
  }

  /** Where the agent stores, and first looks for, the object `oid`. */
  function StorePath(oid: string): Path {
    Sharded(StorageRoot, oid)
  }

  /** Where a download with no destination puts the object `oid`. */
  function CachePath(oid: string): Path {
    Sharded(ObjectCache, oid)
  }

  /** The legacy unsharded location `root / oid`. */
  function FlatPath(oid: string): Path {
    Join(StorageRoot, oid)
  }

  /** The names that sharding appends below a base directory. */
  function ShardNames(oid: string): seq<string> {
    Components(Slice(oid, 0, 2)) + Components(Slice(oid, 2, 4)) + Components(oid)
  }

  /** Sharding below a well-formed base gives a well-formed path. */
  lemma ShardedWellFormed(base: Path, oid: string)
    requires WellFormed(base)
    ensures WellFormed(Sharded(base, oid))
  {
    var p1 := Join(base, Slice(oid, 0, 2));
    assert WellFormed(p1);
    var p2 := Join(p1, Slice(oid, 2, 4));
    assert WellFormed(p2);
    assert Sharded(base, oid) == Join(p2, oid);
  }

  /** The upload target, the download source and the default download destination
      all shard the same way, each under its own base directory. */
  lemma SameSharding(oid: string)
    requires '/' !in oid
    ensures StorePath(oid) == StorageRoot + ShardNames(oid)
    ensures CachePath(oid) == ObjectCache + ShardNames(oid)
    ensures FlatPath(oid) == StorageRoot + Components(oid)
  {
    ShardedNames(StorageRoot, oid);
    ShardedNames(ObjectCache, oid);
    JoinRelative(StorageRoot, oid);
  }

  lemma ShardedNames(base: Path, oid: string)
    requires '/' !in oid
    ensures Sharded(base, oid) == base + ShardNames(oid)
  {
    var c1, c2, c3 := Components(Slice(oid, 0, 2)), Components(Slice(oid, 2, 4)), Components(oid);
    var j1 := Join(base, Slice(oid, 0, 2));
    var j2 := Join(j1, Slice(oid, 2, 4));
    calc {
      Sharded(base, oid);
      Join(j2, oid);
      { JoinRelative(j2, oid); }
      j2 + c3;
      { JoinSlice(j1, oid, 2, 4); }
      j1 + c2 + c3;
      { JoinSlice(base, oid, 0, 2); }
      base + c1 + c2 + c3;
      base + (c1 + c2 + c3);
    }
  }

  lemma JoinSlice(p: Path, oid: string, lo: nat, hi: nat)
    requires lo <= hi && '/' !in oid
    ensures Join(p, Slice(oid, lo, hi)) == p + Components(Slice(oid, lo, hi))
  {
    SliceKeepsNoSlash(oid, lo, hi);
    JoinRelative(p, Slice(oid, lo, hi));
  }

  lemma SliceKeepsNoSlash(s: string, lo: nat, hi: nat)
    requires lo <= hi && '/' !in s
    ensures '/' !in Slice(s, lo, hi)
  {
    var r := Slice(s, lo, hi);
    var a := if lo <= |s| then lo else |s|;
    forall k | 0 <= k < |r| ensures r[k] != '/' {
      assert r[k] == s[a..][k] == s[a + k];
    }
  }

  lemma JoinRelative(p: Path, c: string)
    requires '/' !in c
    ensures Join(p, c) == p + Components(c)
  {
    if |c| > 0 {
      assert c[0] in c;
    }
  }

  /** For an ordinary OID of at least four characters the store path is
      `/tmp/lfs_storage/<oid[0:2]>/<oid[2:4]>/<oid>`. */
  lemma StoreLayout(oid: string)
    requires |oid| >= 4 && '/' !in oid
    ensures StorePath(oid) == StorageRoot + [oid[..2], oid[2..4], oid]
    ensures CachePath(oid) == ObjectCache + [oid[..2], oid[2..4], oid]
    ensures FlatPath(oid) == StorageRoot + [oid]
    ensures Render(StorePath(oid)) == "/tmp/lfs_storage/" + oid[..2] + "/" + oid[2..4] + "/" + oid
  {
    var a, b := oid[..2], oid[2..4];
    assert ShardNames(oid) == [a, b, oid] by {
      SliceKeepsNoSlash(oid, 0, 2);
      SliceKeepsNoSlash(oid, 2, 4);
      assert Slice(oid, 0, 2) == a && Slice(oid, 2, 4) == b;
      assert Components(a) == [a] && Components(b) == [b] && Components(oid) == [oid];
    }
    SameSharding(oid);
    RenderStore(a, b, oid);
  }

  /** Appending a name to a list of names appends "/" and the name to its text. */
  lemma {:induction false} JoinNamesSnoc(ps: seq<string>, x: string)
    requires ps != []
    ensures JoinNames(ps + [x]) == JoinNames(ps) + "/" + x
    decreases |ps|
  {
    var qs := ps + [x];
    assert qs[1..] == ps[1..] + [x];
    if |ps| == 1 {
      assert JoinNames(qs[1..]) == x;
    } else {
      JoinNamesSnoc(ps[1..], x);
      assert JoinNames(qs) == ps[0] + "/" + (JoinNames(ps[1..]) + "/" + x);
    }
  }

  /** `str(p / x)` is `str(p) + "/" + x` when p is neither empty nor the bare anchor. */
  lemma RenderSnoc(p: Path, x: string)
    requires |p| >= 2 || (|p| == 1 && p[0] != Anchor)
    ensures Render(p + [x]) == Render(p) + "/" + x
  {
    if p[0] == Anchor {
      assert (p + [x])[1..] == p[1..] + [x];
      JoinNamesSnoc(p[1..], x);
    } else {
      JoinNamesSnoc(p, x);
    }
  }

  lemma RenderStore(a: string, b: string, oid: string)
    ensures Render(StorageRoot + [a, b, oid]) == "/tmp/lfs_storage/" + a + "/" + b + "/" + oid
  {
    var root := "/tmp/lfs_storage";
    assert Render(StorageRoot) == root by {
      assert StorageRoot[1..] == ["tmp", "lfs_storage"];
      assert JoinNames(["tmp", "lfs_storage"]) == "tmp" + "/" + JoinNames(["lfs_storage"]);
    }
    var p1 := StorageRoot + [a];
    var p2 := p1 + [b];
    assert StorageRoot + [a, b, oid] == p2 + [oid];
    calc {
      Render(p2 + [oid]);
      { RenderSnoc(p2, oid); }
      Render(p2) + "/" + oid;
      { RenderSnoc(p1, b); }
      Render(p1) + "/" + b + "/" + oid;
      { RenderSnoc(StorageRoot, a); }
      root + "/" + a + "/" + b + "/" + oid;
      { assert root + "/" == "/tmp/lfs_storage/"; }
      "/tmp/lfs_storage/" + a + "/" + b + "/" + oid;
    }
  }

  /** For any OID that is a plain name the sharded and the flat location differ,
      so the two lookups of a download are distinct probes. */
  lemma ShardedIsNotFlat(oid: string)
    requires PlainName(oid)
    ensures StorePath(oid) != FlatPath(oid)
  {
    SameSharding(oid);
    var s1 := Slice(oid, 0, 2);
    SliceKeepsNoSlash(oid, 0, 2);
    assert s1 <= oid && |s1| > 0;
    assert |Components(s1)| == 1;
  }

  /** Different OIDs that are plain names have different store locations, so one
      object never overwrites another. */
  lemma StorePathInjective(a: string, b: string)
    requires PlainName(a) && PlainName(b) && a != b
    ensures StorePath(a) != StorePath(b)
  {
    SameSharding(a);
    SameSharding(b);
    var pa, pb := StorePath(a), StorePath(b);
    assert pa[|pa| - 1] == a;
    assert pb[|pb| - 1] == b;
  }
}
