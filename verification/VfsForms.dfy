/** What the forms of path mean, character by character, and where each makes a lookup
    start. */
module VfsForms {
  import opened Vfs

  predicate IsSep(c: char) { c == ':' || c == '/' }

  /** The path names a device of k characters: a colon there, and no separator before. */
  ghost predicate NamesDevice(s: string, k: nat) {
    0 < k < |s| && s[k] == ':' && forall j :: 0 <= j < k ==> !IsSep(s[j])
  }

  /** A path is absolute if it starts with a slash, belongs to the current file system if it
      starts with a colon, to a device if a colon comes before any slash but not first, and
      is relative otherwise. */
  lemma FormOf(s: string)
    ensures Parse(s).Boot? <==> s != "" && s[0] == '/'
    ensures Parse(s).CurRoot? <==> s != "" && s[0] == ':'
    ensures Parse(s).Device? <==> exists k :: NamesDevice(s, k)
    ensures Parse(s).Relative? <==> s == "" || (!IsSep(s[0]) && forall k :: !NamesDevice(s, k))
  {
    var k := FirstSep(s, 0);
    if 0 < k < |s| && s[k] == ':' { assert NamesDevice(s, k); }
    if j :| NamesDevice(s, j) { FirstSepIs(s, 0, j); }
  }

  /** A path is a prefix of k characters, n slashes, and the rest: the prefix has the
      separator, if it is not empty, at its end and nowhere else, and then the rest starts
      with no slash. */
  ghost predicate Split(s: string, k: nat, n: nat) {
    && k + n <= |s| && s[k..k + n] == Slashes(n)
    && (if k == 0 then n == 0
        else IsSep(s[k - 1]) && (forall j :: 0 <= j < k - 1 ==> !IsSep(s[j])) && (k + n < |s| ==> s[k + n] != '/'))
  }

  lemma {:induction false} CountSlashes(s: string) returns (n: nat)
    ensures n <= |s| && s[..n] == Slashes(n) && SkipSlashes(s) == s[n..]
  {
    if s != "" && s[0] == '/' {
      n := CountSlashes(s[1..]);
      assert s[1..][n..] == s[n + 1..];
      assert s[..n + 1] == "/" + s[1..][..n] && Slashes(n + 1) == "/" + Slashes(n);
      n := n + 1;
    } else {
      n := 0;
    }
  }

  lemma SlashesAfter(s: string, k: nat) returns (n: nat)
    requires k <= |s|
    ensures k + n <= |s| && s[k..k + n] == Slashes(n) && SkipSlashes(s[k..]) == s[k + n..] && (k + n < |s| ==> s[k + n] != '/')
  {
    n := CountSlashes(s[k..]);
    assert s[k..][n..] == s[k + n..];
    assert s[k..k + n] == s[k..][..n];
  }

  /** How Parse splits a path. */
  lemma ParseSplits(s: string) returns (k: nat, n: nat)
    ensures Split(s, k, n) && Parse(s).sub == s[k + n..]
    ensures match Parse(s)
            case Relative(_) => k == 0
            case Device(dev, _) => k > 0 && NamesDevice(s, k - 1) && dev == s[..k - 1]
            case Boot(_) => k == 1 && s[0] == '/'
            case CurRoot(_) => k == 1 && s[0] == ':'
  {
    if Parse(s).Relative? {
      k, n := 0, 0;
      assert s[0..0] == Slashes(0) && s[0..] == s;
    } else {
      k := FirstSep(s, 0) + 1;
      n := SlashesAfter(s, k);
    }
  }

  /** A slot's vnode, or ENOENT. */
  function OfSlot(slot: Option<nat>): Result<nat> {
    if slot.Some? then Ok(slot.value) else Err(ENOENT)
  }

  /** The start of a lookup with the calls made to find it, by the characters of the path:
      of a prefix of k characters. */
  ghost predicate StartsAt(s: string, k: nat, cwd: Option<nat>, bootfs: Option<nat>, fsOf: map<nat, nat>,
                           start: Result<nat>, c0: seq<Call>, c1: seq<Call>)
    requires k <= |s|
  {
    if s != "" && s[0] == '/' then k == 1 && start == OfSlot(bootfs) && c1 == c0
    else if s != "" && s[0] == ':' then
      k == 1 && if cwd.None? then start == Err(ENOENT) && c1 == c0
                else cwd.value in fsOf && c1 == c0 + [FsRoot(fsOf[cwd.value], start)]
    else if exists j :: NamesDevice(s, j) then k > 1 && NamesDevice(s, k - 1) && c1 == c0 + [DeviceRoot(s[..k - 1], start)]
    else k == 0 && start == OfSlot(cwd) && c1 == c0
  }

  lemma StartOf(s: string, cwd: Option<nat>, bootfs: Option<nat>, fsOf: map<nat, nat>, start: Result<nat>, c0: seq<Call>, c1: seq<Call>)
    returns (k: nat, n: nat)
    requires Started(Parse(s), cwd, bootfs, fsOf, start, c0, c1)
    ensures Split(s, k, n) && Parse(s).sub == s[k + n..] && StartsAt(s, k, cwd, bootfs, fsOf, start, c0, c1)
  {
    FormOf(s);
    k, n := ParseSplits(s);
  }

  /** vfs_lookup, by the characters of its path: an absolute path starts at the root of the
      boot file system, one that starts with a colon at the root of the current directory's,
      one that names a device at that device's root, and any other at the current directory;
      what is left of the path, if anything is, is given to one VOP_LOOKUP. */
  lemma LookupMeans(s: string, cwd: Option<nat>, bootfs: Option<nat>, fsOf: map<nat, nat>, r: Result<nat>, c0: seq<Call>, c2: seq<Call>)
    returns (k: nat, n: nat, start: Result<nat>, c1: seq<Call>)
    requires Looked(Parse(s), cwd, bootfs, fsOf, r, c0, c2)
    ensures Split(s, k, n) && StartsAt(s, k, cwd, bootfs, fsOf, start, c0, c1)
    ensures start.Err? || s[k + n..] == "" ==> r == start && c2 == c1
    ensures start.Ok? && s[k + n..] != "" ==> c2 == c1 + [VopLookup(start.value, s[k + n..], r)]
  {
    start, c1 :| LookedVia(Parse(s), cwd, bootfs, fsOf, start, c1, r, c0, c2);
    k, n := StartOf(s, cwd, bootfs, fsOf, start, c0, c1);
  }

  /** vfs_lookparent likewise; a path with nothing left has no parent. */
  lemma LookparentMeans(s: string, cwd: Option<nat>, bootfs: Option<nat>, fsOf: map<nat, nat>, q: Parent, c0: seq<Call>, c2: seq<Call>)
    returns (k: nat, n: nat, start: Result<nat>, c1: seq<Call>)
    requires ParentLooked(Parse(s), cwd, bootfs, fsOf, q, c0, c2)
    ensures Split(s, k, n) && StartsAt(s, k, cwd, bootfs, fsOf, start, c0, c1)
    ensures start.Err? ==> q == Err(start.errno) && c2 == c1
    ensures start.Ok? && s[k + n..] == "" ==> q == Err(EINVAL) && c2 == c1
    ensures start.Ok? && s[k + n..] != "" ==> c2 == c1 + [VopLookparent(start.value, s[k + n..], q)]
  {
    start, c1 :| ParentVia(Parse(s), cwd, bootfs, fsOf, start, c1, q, c0, c2);
    k, n := StartOf(s, cwd, bootfs, fsOf, start, c0, c1);
  }
}
