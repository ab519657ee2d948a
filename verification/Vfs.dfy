/** Path translation and path operations of kern/vfs: vfslookup.c, vfscwd.c and vfspath.c,
    with every reference they take accounted for. */
module Vfs {

  const ENOENT := 19
  const EINVAL := 8
  const EXDEV := 24
  const ENOTDIR := 17

  const O_WRONLY := 1
  const O_RDWR := 2
  const O_CREAT := 4
  const O_EXCL := 8
  const O_TRUNC := 16
  const O_ACCMODE := 3

  /** flags & f, for a flag that is a power of two. */
  predicate Has(flags: nat, f: nat)
    requires f > 0
  {
    flags / f % 2 == 1
  }

  datatype Option<T> = None | Some(value: T)
  datatype Result<T> = Ok(value: T) | Err(errno: nat)

  // ---------------------------------------------------------------- paths

  /** The first colon or slash from i on. */
  function FirstSep(s: string, i: nat): (k: nat)
    requires i <= |s|
    ensures i <= k <= |s| && (k < |s| ==> s[k] == ':' || s[k] == '/')
    ensures forall j :: i <= j < k ==> s[j] != ':' && s[j] != '/'
    decreases |s| - i
  {
    if i == |s| || s[i] == ':' || s[i] == '/' then i else FirstSep(s, i + 1)
  }

  function SkipSlashes(s: string): (r: string)
    ensures r != "" ==> r[0] != '/'
  {
    if s != "" && s[0] == '/' then SkipSlashes(s[1..]) else s
  }

  /** Where a lookup starts, and what is left of the path. */
  datatype Start =
    | Relative(sub: string)               // the current directory
    | Device(dev: string, sub: string)    // the root of a device's filesystem, or the device
    | Boot(sub: string)                   // the root of the boot filesystem
    | CurRoot(sub: string)                // the root of the current directory's filesystem

  function Parse(s: string): Start {
    var k := FirstSep(s, 0);
    if k == |s| then Relative(s)
    else if s[k] == ':' then
      if k > 0 then Device(s[..k], SkipSlashes(s[k + 1..])) else CurRoot(SkipSlashes(s[1..]))
    else if k > 0 then Relative(s)
    else Boot(SkipSlashes(s[1..]))
  }

  /** What translating a path leaves in its buffer: the colon after a device's name becomes
      the end of the string. */
  function Left(s: string): string {
    var p := Parse(s);
    if p.Device? then p.dev else s
  }

  function Slashes(n: nat): string { seq(n, _ => '/') }

  lemma {:induction false} SkippedSlashes(s: string) returns (n: nat)
    ensures s == Slashes(n) + SkipSlashes(s)
  {
    if s != "" && s[0] == '/' {
      n := SkippedSlashes(s[1..]);
      assert s == "/" + s[1..] && Slashes(n + 1) == "/" + Slashes(n);
      n := n + 1;
    } else {
      n := 0;
    }
  }

  /** The path is the device, the separator, slashes, and the rest: nothing else is lost. */
  lemma ParseKeeps(s: string) returns (n: nat)
    ensures match Parse(s)
            case Relative(sub) => sub == s
            case Device(dev, sub) => dev != "" && ':' !in dev && '/' !in dev && s == dev + ":" + Slashes(n) + sub
            case Boot(sub) => s == "/" + Slashes(n) + sub
            case CurRoot(sub) => s == ":" + Slashes(n) + sub
  {
    var k := FirstSep(s, 0);
    n := 0;
    if k < |s| {
      n := SkippedSlashes(s[k + 1..]);
      SplitAt(s, k, SkipSlashes(s[k + 1..]), n);
    }
  }

  lemma SplitAt(s: string, k: nat, sub: string, n: nat)
    requires k < |s| && s[k + 1..] == Slashes(n) + sub
    ensures s == s[..k] + [s[k]] + Slashes(n) + sub && (k == 0 ==> s == [s[0]] + Slashes(n) + sub)
  {
    assert s == s[..k] + [s[k]] + s[k + 1..];
  }

  /** Extra slashes after the separator make no difference. */
  lemma ParseSlash(dev: string, sub: string)
    requires dev != "" && ':' !in dev && '/' !in dev
    ensures Parse(dev + ":/" + sub) == Parse(dev + ":" + sub)
  {
    var s, r := dev + ":/" + sub, dev + ":" + sub;
    FirstSepIs(s, 0, |dev|);
    FirstSepIs(r, 0, |dev|);
    assert s[|dev| + 1..] == "/" + sub && r[|dev| + 1..] == sub;
    assert s[..|dev|] == dev && r[..|dev|] == dev;
  }

  lemma {:induction false} FirstSepIs(s: string, i: nat, k: nat)
    requires i <= k < |s| && (s[k] == ':' || s[k] == '/') && forall j :: i <= j < k ==> s[j] != ':' && s[j] != '/'
    ensures FirstSep(s, i) == k
    decreases k - i
  {
    if i < k { FirstSepIs(s, i + 1, k); }
  }

  /** The C string s starts at p. */
  ghost predicate CString(a: seq<char>, p: nat, s: string) {
    p + |s| < |a| && a[p..p + |s|] == s && a[p + |s|] == '\0' && forall j :: 0 <= j < |s| ==> s[j] != '\0'
  }

  lemma CStringEdit(a: seq<char>, b: seq<char>, k: nat, s: string)
    requires k < |a| && b == a[k := '\0'] && CString(a, k + 1, s)
    ensures CString(b, k + 1, s)
  {
    assert b[k + 1..k + 1 + |s|] == a[k + 1..k + 1 + |s|];
  }

  lemma CStringCut(a: seq<char>, b: seq<char>, s: string, k: nat)
    requires CString(a, 0, s) && k < |s| && b == a[k := '\0']
    ensures CString(b, 0, s[..k])
  {
    assert b[..k] == a[0..|s|][..k];
  }

  lemma CStringAt(a: seq<char>, p: nat, s: string, i: nat)
    requires CString(a, p, s) && i < |s|
    ensures a[p + i] == s[i]
  {
    assert a[p..p + |s|][i] == a[p + i];
  }

  lemma CStringEnd(a: seq<char>, p: nat, s: string, i: nat)
    requires CString(a, p, s) && i <= |s| && a[p + i] == '\0'
    ensures i == |s|
  {
    if i < |s| { CStringAt(a, p, s, i); }
  }

  lemma CStringTail(a: seq<char>, p: nat, s: string, k: nat)
    requires CString(a, p, s) && k <= |s|
    ensures CString(a, p + k, s[k..])
  {
    assert a[p + k..p + k + |s[k..]|] == a[p..p + |s|][k..];
  }

  // ---------------------------------------------------------------- what the operations did

  /** Calls made to translate a path, with their results. */
  datatype Call =
    | DeviceRoot(dev: string, root: Result<nat>)
    | FsRoot(fs: nat, root: Result<nat>)
    | VopLookup(dir: nat, path: string, r: Result<nat>)
    | VopLookparent(dir: nat, path: string, p: Result<(nat, string)>)

  /** What an operation on paths did: this layer's own lookups, and vnode.h's operations. */
  datatype Op =
    | LookedUp(path: string, r: Result<nat>)
    | LookedParent(path: string, p: Result<(nat, string)>)
    | Creat(dir: nat, name: string, excl: bool, r: Result<nat>)
    | EachOpen(v: nat, flags: nat, err: nat)
    | Truncate(v: nat, err: nat)
    | Remove(dir: nat, name: string, err: nat)
    | Rename(dir1: nat, name1: string, dir2: nat, name2: string, err: nat)
    | Link(dir: nat, name: string, file: nat, err: nat)
    | Symlink(dir: nat, name: string, contents: string, err: nat)
    | Readlink(v: nat, err: nat)
    | Mkdir(dir: nat, name: string, err: nat)
    | Rmdir(dir: nat, name: string, err: nat)
    | GetType(v: nat, isDir: bool, err: nat)

  /** The references to a vnode: held, in the two slots, and left behind by VOP_RECLAIM. */
  ghost function Owners(owned: multiset<nat>, cwd: Option<nat>, bootfs: Option<nat>, stuck: set<nat>, v: nat): nat {
    owned[v] + (if cwd == Some(v) then 1 else 0) + (if bootfs == Some(v) then 1 else 0) + (if v in stuck then 1 else 0)
  }

  ghost predicate Balanced(refs: map<nat, nat>, owned: multiset<nat>, cwd: Option<nat>, bootfs: Option<nat>, stuck: set<nat>) {
    && (forall v :: Owners(owned, cwd, bootfs, stuck, v) > 0 ==> v in refs)
    && (forall v :: v in refs ==> refs[v] > 0 && refs[v] == Owners(owned, cwd, bootfs, stuck, v))
  }

  /** The reference that goes with a slot. */
  ghost function Held(v: Option<nat>): multiset<nat> {
    if v.Some? then multiset{v.value} else multiset{}
  }

  /** A vnode moving between a slot and hands leaves the counts right. */
  lemma SwapOwners(owned: multiset<nat>, a: Option<nat>, b: Option<nat>, other: Option<nat>, stuck: set<nat>, v: nat)
    requires Held(b) <= owned
    ensures Owners(owned - Held(b) + Held(a), b, other, stuck, v) == Owners(owned, a, other, stuck, v)
    ensures Owners(owned - Held(b) + Held(a), other, b, stuck, v) == Owners(owned, other, a, stuck, v)
  {
  }

  /** The first slot is the current directory's, */
  lemma SwapFirst(refs: map<nat, nat>, owned: multiset<nat>, a: Option<nat>, b: Option<nat>, other: Option<nat>, stuck: set<nat>)
    requires (b.Some? ==> b.value in owned) && Balanced(refs, owned, a, other, stuck)
    ensures Balanced(refs, owned - Held(b) + Held(a), b, other, stuck)
  {
    assert Held(b) <= owned;
    forall v: nat ensures Owners(owned - Held(b) + Held(a), b, other, stuck, v) == Owners(owned, a, other, stuck, v) {
      SwapOwners(owned, a, b, other, stuck, v);
    }
  }

  /** and the second the boot file system's. */
  lemma SwapSecond(refs: map<nat, nat>, owned: multiset<nat>, other: Option<nat>, a: Option<nat>, b: Option<nat>, stuck: set<nat>)
    requires (b.Some? ==> b.value in owned) && Balanced(refs, owned, other, a, stuck)
    ensures Balanced(refs, owned - Held(b) + Held(a), other, b, stuck)
  {
    assert Held(b) <= owned;
    forall v: nat ensures Owners(owned - Held(b) + Held(a), other, b, stuck, v) == Owners(owned, other, a, stuck, v) {
      SwapOwners(owned, a, b, other, stuck, v);
    }
  }

  lemma IncrefBalanced(refs: map<nat, nat>, owned: multiset<nat>, cwd: Option<nat>, bootfs: Option<nat>, stuck: set<nat>, v: nat)
    requires Balanced(refs, owned, cwd, bootfs, stuck)
    ensures Balanced(refs[v := if v in refs then refs[v] + 1 else 1], owned + multiset{v}, cwd, bootfs, stuck)
  {
    var owned' := owned + multiset{v};
    forall u: nat
      ensures Owners(owned', cwd, bootfs, stuck, u) == Owners(owned, cwd, bootfs, stuck, u) + (if u == v then 1 else 0)
    {
    }
  }

  lemma DecrefBalanced(refs: map<nat, nat>, owned: multiset<nat>, cwd: Option<nat>, bootfs: Option<nat>, stuck: set<nat>, v: nat)
    requires Balanced(refs, owned, cwd, bootfs, stuck) && v in owned
    ensures v in refs && refs[v] > 0
    ensures refs[v] > 1 ==> Balanced(refs[v := refs[v] - 1], owned - multiset{v}, cwd, bootfs, stuck)
    ensures refs[v] == 1 ==> Balanced(refs - {v}, owned - multiset{v}, cwd, bootfs, stuck)
    ensures refs[v] == 1 ==> Balanced(refs, owned - multiset{v}, cwd, bootfs, stuck + {v}) && cwd != Some(v) && bootfs != Some(v)
  {
    var owned' := owned - multiset{v};
    assert Owners(owned, cwd, bootfs, stuck, v) > 0;
    forall u: nat
      ensures Owners(owned', cwd, bootfs, stuck, u) == Owners(owned, cwd, bootfs, stuck, u) - (if u == v then 1 else 0)
    {
    }
    if refs[v] == 1 {
      forall u: nat ensures Owners(owned', cwd, bootfs, stuck + {v}, u) == Owners(owned, cwd, bootfs, stuck, u) {
      }
    }
  }

  lemma InHand(owned: multiset<nat>, a: nat, b: nat)
    requires a in owned
    ensures multiset{b, a} <= owned + multiset{b}
    ensures owned + multiset{b} - multiset{b, a} == owned - multiset{a}
  {
  }

  /** A start taken and given up. */
  lemma StartDropped(owned: multiset<nat>, start: nat, given: multiset<nat>)
    ensures owned + multiset{start} - multiset{start} + given == owned + given
  {
  }

  /** In and out again. */
  lemma InAndOut(owned: multiset<nat>, d: nat, prev: Option<nat>)
    ensures owned + multiset{d} - Held(Some(d)) + Held(prev) - Held(prev) == owned
  {
  }

  function Last(ops: seq<Op>): Op
    requires ops != []
  {
    ops[|ops| - 1]
  }

  class VfsState {
    var refs: map<nat, nat>        // vn_refcount of every vnode there is
    var fsOf: map<nat, nat>        // vn_fs; 0 is NULL
    var cwd: Option<nat>           // curproc->p_cwd
    var bootfs: Option<nat>        // bootfs_vnode
    ghost var owned: multiset<nat> // references held by callers, open files, the device table, ...
    ghost var stuck: set<nat>      // vnodes whose last reference VOP_RECLAIM failed to consume
    ghost var calls: seq<Call>
    ghost var ops: seq<Op>

    /** Every vnode's count is the number of its owners, and there is no vnode without. */
    ghost predicate Valid()
      reads this
    {
      && Balanced(refs, owned, cwd, bootfs, stuck)
      && (forall v :: v in refs ==> v in fsOf)
      && (cwd.Some? ==> cwd.value in fsOf && fsOf[cwd.value] != 0)
    }

    constructor ()
      ensures Valid() && owned == multiset{} && cwd == None && bootfs == None && stuck == {} && calls == [] && ops == []
    {
      refs, fsOf, cwd, bootfs := map[], map[], None, None;
      owned, stuck, calls, ops := multiset{}, {}, [], [];
    }

    // -------------------------------------------------------------- references

    /** VOP_INCREF, by somebody who may. */
    method Incref(v: nat)
      requires Valid() && v in refs
      modifies this`refs, this`owned
      ensures Valid() && owned == old(owned) + multiset{v}
    {
      IncrefBalanced(refs, owned, cwd, bootfs, stuck, v);
      refs := refs[v := refs[v] + 1];
      owned := owned + multiset{v};
    }

    /** VOP_DECREF of a reference held. Whether VOP_RECLAIM succeeds is up to the file
        system; when it fails the vnode stays, with a reference nobody holds. */
    method Decref(v: nat)
      requires Valid() && v in owned
      modifies this`refs, this`owned, this`stuck
      ensures Valid() && owned == old(owned) - multiset{v}
      ensures stuck == old(stuck) || (stuck == old(stuck) + {v} && old(refs)[v] == 1)
    {
      DecrefBalanced(refs, owned, cwd, bootfs, stuck, v);
      owned := owned - multiset{v};
      if refs[v] > 1 {
        refs := refs[v := refs[v] - 1];
      } else {
        var reclaimed: bool := *;
        if reclaimed { refs := refs - {v}; } else { stuck := stuck + {v}; }
      }
    }

    /** A vnode the file system hands back, with one reference more. */
    method HandBack() returns (v: nat)
      requires Valid()
      modifies this`refs, this`fsOf, this`owned
      ensures Valid() && owned == old(owned) + multiset{v}
      ensures forall u :: u in old(refs) ==> u in fsOf && fsOf[u] == old(fsOf)[u]
      ensures v in refs
    {
      v := *;
      IncrefBalanced(refs, owned, cwd, bootfs, stuck, v);
      if v in refs {
        refs := refs[v := refs[v] + 1];
      } else {
        var fs: nat := *;
        refs, fsOf := refs[v := 1], fsOf[v := fs];
      }
      owned := owned + multiset{v};
    }

    // -------------------------------------------------------------- vfscwd.c

    /** vfs_getcurdir. */
    method GetCurDir() returns (r: Result<nat>)
      requires Valid()
      modifies this`refs, this`owned
      ensures Valid()
      ensures match cwd
              case Some(v) => r == Ok(v) && owned == old(owned) + multiset{v}
              case None => r == Err(ENOENT) && owned == old(owned) && refs == old(refs)
    {
      if cwd.Some? {
        var v := cwd.value;
        Incref(v);
        r := Ok(v);
      } else {
        r := Err(ENOENT);
      }
    }

    /** VOP_GETTYPE; devices are not directories. */
    method GetVnodeType(v: nat) returns (err: nat, isDir: bool)
      requires Valid() && v in refs
      modifies this`ops
      ensures Valid() && ops == old(ops) + [GetType(v, isDir, err)] && (err == 0 && isDir ==> fsOf[v] != 0)
    {
      err := *;
      isDir := *;
      if fsOf[v] == 0 { isDir := false; }
      ops := ops + [GetType(v, isDir, err)];
    }

    /** Putting a vnode the caller holds into the slot, for what was there. */
    method SwapCwd(newvn: Option<nat>) returns (prev: Option<nat>)
      requires Valid() && (newvn.Some? ==> newvn.value in owned && fsOf[newvn.value] != 0)
      modifies this`owned, this`cwd
      ensures Valid() && cwd == newvn && prev == old(cwd) && owned == old(owned) - Held(newvn) + Held(prev)
    {
      SwapFirst(refs, owned, cwd, newvn, bootfs, stuck);
      prev := cwd;
      cwd := newvn;
      owned := owned - Held(newvn) + Held(prev);
    }

    method SwapBootfs(newvn: Option<nat>) returns (prev: Option<nat>)
      requires Valid() && (newvn.Some? ==> newvn.value in owned)
      modifies this`owned, this`bootfs
      ensures Valid() && bootfs == newvn && prev == old(bootfs) && owned == old(owned) - Held(newvn) + Held(prev)
    {
      SwapSecond(refs, owned, cwd, bootfs, newvn, stuck);
      prev := bootfs;
      bootfs := newvn;
      owned := owned - Held(newvn) + Held(prev);
    }

    /** Giving up what came out of a slot. */
    method DropHeld(prev: Option<nat>)
      requires Valid() && (prev.Some? ==> prev.value in owned)
      modifies this`refs, this`owned, this`stuck
      ensures Valid() && owned == old(owned) - Held(prev)
    {
      if prev.Some? { Decref(prev.value); }
    }

    /** vfs_setcurdir. */
    method SetCurDir(dir: nat) returns (err: nat)
      requires Valid() && dir in owned
      modifies this`refs, this`owned, this`cwd, this`stuck, this`ops
      ensures Valid() && owned == old(owned)
      ensures |ops| == |old(ops)| + 1 && ops[..|old(ops)|] == old(ops)
      ensures Last(ops).GetType? && Last(ops).v == dir
      ensures err == if Last(ops).err != 0 then Last(ops).err else if !Last(ops).isDir then ENOTDIR else 0
      ensures cwd == if err == 0 then Some(dir) else old(cwd)
    {
      var isDir;
      err, isDir := GetVnodeType(dir);
      if err == 0 {
        if isDir { ReplaceCwd(dir); } else { err := ENOTDIR; }
      }
    }

    /** The end of vfs_setcurdir, for a directory. */
    method ReplaceCwd(dir: nat)
      requires Valid() && dir in owned && fsOf[dir] != 0
      modifies this`refs, this`owned, this`cwd, this`stuck
      ensures Valid() && owned == old(owned) && cwd == Some(dir)
    {
      Incref(dir);
      var prev := SwapCwd(Some(dir));
      InAndOut(old(owned), dir, prev);
      DropHeld(prev);
    }

    /** vfs_clearcurdir. */
    method ClearCurDir()
      requires Valid()
      modifies this`refs, this`owned, this`cwd, this`stuck
      ensures Valid() && owned == old(owned) && cwd == None
    {
      var prev := SwapCwd(None);
      DropHeld(prev);
    }

    // -------------------------------------------------------------- vfslookup.c

    /** change_bootfs; the reference to the new vnode passes from the caller to the slot. */
    method ChangeBootfs(newvn: Option<nat>)
      requires Valid() && (newvn.Some? ==> newvn.value in owned)
      modifies this`refs, this`owned, this`bootfs, this`stuck
      ensures Valid() && bootfs == newvn && owned == old(owned) - Held(newvn)
    {
      var prev := SwapBootfs(newvn);
      DropHeld(prev);
    }

    /** A file system or the device table handing back a vnode, or failing. */
    method MayHandBack() returns (r: Result<nat>)
      requires Valid()
      modifies this`refs, this`fsOf, this`owned
      ensures Valid() && owned == old(owned) + Given(r)
      ensures r.Ok? ==> r.value in owned
      ensures r.Err? ==> r.errno != 0
      ensures forall u :: u in old(refs) ==> u in fsOf && fsOf[u] == old(fsOf)[u]
    {
      var e: nat := *;
      if e != 0 { return Err(e); }
      var v := HandBack();
      r := Ok(v);
    }

    /** vfs_getroot: the device list is not modelled further. */
    method GetRoot(dev: string) returns (r: Result<nat>)
      requires Valid()
      modifies this`refs, this`fsOf, this`owned, this`calls
      ensures Valid() && owned == old(owned) + Given(r) && calls == old(calls) + [DeviceRoot(dev, r)]
      ensures r.Ok? ==> r.value in owned
      ensures r.Err? ==> r.errno != 0
    {
      r := MayHandBack();
      calls := calls + [DeviceRoot(dev, r)];
    }

    /** FSOP_GETROOT. */
    method GetFsRoot(fs: nat) returns (r: Result<nat>)
      requires Valid()
      modifies this`refs, this`fsOf, this`owned, this`calls
      ensures Valid() && owned == old(owned) + Given(r) && calls == old(calls) + [FsRoot(fs, r)]
      ensures r.Ok? ==> r.value in owned
      ensures r.Err? ==> r.errno != 0
    {
      r := MayHandBack();
      calls := calls + [FsRoot(fs, r)];
    }

    /** The scan for the first colon or slash. */
    static method FindSep(path: array<char>, ghost s: string) returns (slash: int, colon: int)
      requires CString(path[..], 0, s)
      ensures var k := FirstSep(s, 0);
              && slash == (if k < |s| && s[k] == '/' then k else -1)
              && colon == (if k < |s| && s[k] == ':' then k else -1)
    {
      slash, colon := -1, -1;
      var i := 0;
      while path[i] != '\0'
        invariant i <= |s| && forall j :: 0 <= j < i ==> s[j] != ':' && s[j] != '/'
        decreases |s| - i
      {
        assert path[i] == path[..][0..|s|][i] == s[i];
        if path[i] == ':' {
          colon := i;
          FirstSepIs(s, 0, i);
          break;
        }
        if path[i] == '/' {
          slash := i;
          FirstSepIs(s, 0, i);
          break;
        }
        i := i + 1;
      }
      if slash < 0 && colon < 0 {
        CStringEnd(path[..], 0, s, i);
        NoSep(s, 0);
      }
    }

    /** Past any slashes at p. */
    static method SkipTo(path: array<char>, p0: nat, ghost s: string) returns (p: nat)
      requires CString(path[..], p0, s)
      ensures CString(path[..], p, SkipSlashes(s))
    {
      p := p0;
      ghost var r := s;
      while path[p] == '/'
        invariant CString(path[..], p, r) && SkipSlashes(r) == SkipSlashes(s)
        decreases |r|
      {
        assert r != "" && r[0] == '/' by { assert path[..][p..p + |r|] == r; }
        CStringTail(path[..], p, r, 1);
        r := r[1..];
        p := p + 1;
      }
      assert r != "" ==> r[0] == path[p] by { assert path[..][p..p + |r|] == r; }
    }

    /** getdevice for device:path; the colon becomes the end of the device's name. */
    method FromDevice(path: array<char>, colon: nat, ghost s: string) returns (r: Result<nat>, sub: nat)
      requires Valid() && CString(path[..], 0, s) && 0 < colon < |s| && colon == FirstSep(s, 0) && s[colon] == ':'
      modifies this`refs, this`fsOf, this`owned, this`calls, path
      ensures Valid() && owned == old(owned) + Given(r) && calls == old(calls) + [DeviceRoot(s[..colon], r)]
      ensures r.Ok? ==> r.value in owned
      ensures r.Err? ==> r.errno != 0
      ensures CString(path[..], sub, SkipSlashes(s[colon + 1..])) && CString(path[..], 0, s[..colon])
    {
      CStringTail(path[..], 0, s, colon + 1);
      var dev := path[..colon];
      forall i | 0 <= i < colon ensures dev[i] == s[i] { CStringAt(path[..], 0, s, i); }
      assert dev == s[..colon];
      ghost var was := path[..];
      path[colon] := '\0';
      CStringEdit(was, path[..], colon, s[colon + 1..]);
      CStringCut(was, path[..], s, colon);
      sub := SkipTo(path, colon + 1, s[colon + 1..]);
      r := GetRoot(dev);
    }

    /** getdevice for /path and :path. */
    method FromRoot(path: array<char>, ghost s: string) returns (r: Result<nat>, sub: nat)
      requires Valid() && CString(path[..], 0, s) && s != "" && (s[0] == '/' || s[0] == ':')
      modifies this`refs, this`fsOf, this`owned, this`stuck, this`calls
      ensures Valid() && owned == old(owned) + Given(r)
      ensures r.Ok? ==> r.value in owned && CString(path[..], sub, SkipSlashes(s[1..]))
      ensures r.Err? ==> r.errno != 0
      ensures Started(if s[0] == '/' then Boot("") else CurRoot(""), cwd, bootfs, old(fsOf), r, old(calls), calls)
    {
      CStringTail(path[..], 0, s, 1);
      CStringAt(path[..], 0, s, 0);
      if path[0] == '/' {
        if bootfs.None? { return Err(ENOENT), 0; }
        Incref(bootfs.value);
        r := Ok(bootfs.value);
      } else {
        r := CurrentRoot();
        if r.Err? { return r, 0; }
      }
      sub := SkipTo(path, 1, s[1..]);
    }

    /** getdevice. */
    method GetDevice(path: array<char>, ghost s: string) returns (r: Result<nat>, sub: nat)
      requires Valid() && CString(path[..], 0, s)
      modifies this`refs, this`fsOf, this`owned, this`stuck, this`calls, path
      ensures Valid() && owned == old(owned) + Given(r)
      ensures r.Ok? ==> r.value in owned && CString(path[..], sub, Parse(s).sub)
      ensures r.Err? ==> r.errno != 0
      ensures CString(path[..], 0, Left(s))
      ensures Started(Parse(s), cwd, bootfs, old(fsOf), r, old(calls), calls)
    {
      var slash, colon := FindSep(path, s);
      if colon < 0 && slash != 0 {
        assert Parse(s) == Relative(s);
        sub := 0;
        r := GetCurDir();
      } else if colon > 0 {
        assert Parse(s) == Device(s[..colon], SkipSlashes(s[colon + 1..]));
        r, sub := FromDevice(path, colon, s);
      } else {
        assert Parse(s) == if slash == 0 then Boot(SkipSlashes(s[1..])) else CurRoot(SkipSlashes(s[1..]));
        r, sub := FromRoot(path, s);
      }
    }

    /** VOP_LOOKUP: on success the vnode comes with a reference. */
    method VnodeLookup(dir: nat, path: string) returns (r: Result<nat>)
      requires Valid()
      modifies this`refs, this`fsOf, this`owned, this`calls
      ensures Valid() && owned == old(owned) + Given(r) && calls == old(calls) + [VopLookup(dir, path, r)]
      ensures r.Ok? ==> r.value in owned
      ensures r.Err? ==> r.errno != 0
    {
      r := MayHandBack();
      calls := calls + [VopLookup(dir, path, r)];
    }

    /** VOP_LOOKPARENT: likewise, and the last component. */
    method VnodeLookparent(dir: nat, path: string) returns (p: Result<(nat, string)>)
      requires Valid()
      modifies this`refs, this`fsOf, this`owned, this`calls
      ensures Valid() && owned == old(owned) + Given(Dir(p)) && calls == old(calls) + [VopLookparent(dir, path, p)]
      ensures p.Ok? ==> p.value.0 in owned
      ensures p.Err? ==> p.errno != 0
    {
      var r := MayHandBack();
      var name: string := *;
      p := if r.Ok? then Ok((r.value, name)) else Err(r.errno);
      calls := calls + [VopLookparent(dir, path, p)];
    }

    /** The rest of a C string. */
    static method Rest(path: array<char>, sub: nat, ghost s: string) returns (r: string)
      requires CString(path[..], sub, s)
      ensures r == s
    {
      r := "";
      var i := sub;
      while path[i] != '\0'
        invariant sub <= i <= sub + |s| && r == s[..i - sub]
        decreases sub + |s| - i
      {
        assert path[i] == path[..][sub..sub + |s|][i - sub];
        r := r + [path[i]];
        i := i + 1;
      }
      CStringEnd(path[..], sub, s, i - sub);
    }

    /** VOP_LOOKUP from the start, which is given up. */
    method LookupFrom(startvn: nat, rest: string) returns (r: Result<nat>)
      requires Valid() && startvn in owned
      modifies this`refs, this`fsOf, this`owned, this`stuck, this`calls
      ensures Valid() && owned == old(owned) - multiset{startvn} + Given(r)
      ensures r.Ok? ==> r.value in owned
      ensures r.Err? ==> r.errno != 0
      ensures calls == old(calls) + [VopLookup(startvn, rest, r)]
    {
      r := VnodeLookup(startvn, rest);
      Decref(startvn);
    }

    /** vfs_lookup. */
    method Lookup(path: array<char>, ghost s: string) returns (r: Result<nat>)
      requires Valid() && CString(path[..], 0, s)
      modifies this`refs, this`fsOf, this`owned, this`stuck, this`calls, this`ops, path
      ensures Valid() && owned == old(owned) + Given(r) && ops == old(ops) + [LookedUp(s, r)]
      ensures r.Ok? ==> r.value in owned
      ensures r.Err? ==> r.errno != 0
      ensures CString(path[..], 0, Left(s))
      ensures Looked(Parse(s), cwd, bootfs, old(fsOf), r, old(calls), calls)
    {
      var startvn, sub := GetDevice(path, s);
      ghost var c1 := calls;
      if startvn.Err? {
        r := startvn;
      } else {
        var rest := Rest(path, sub, Parse(s).sub);
        if rest == "" {
          r := startvn;
        } else {
          r := LookupFrom(startvn.value, rest);
          StartDropped(old(owned), startvn.value, Given(r));
        }
      }
      ops := ops + [LookedUp(s, r)];
      assert LookedVia(Parse(s), cwd, bootfs, old(fsOf), startvn, c1, r, old(calls), calls);
    }

    /** vfs_lookparent once the start is known; it is given up. */
    method ParentFrom(startvn: nat, rest: string) returns (p: Result<(nat, string)>)
      requires Valid() && startvn in owned
      modifies this`refs, this`fsOf, this`owned, this`stuck, this`calls
      ensures Valid() && owned == old(owned) - multiset{startvn} + Given(Dir(p))
      ensures p.Ok? ==> p.value.0 in owned
      ensures p.Err? ==> p.errno != 0
      ensures if rest == "" then p == Err(EINVAL) && calls == old(calls) else calls == old(calls) + [VopLookparent(startvn, rest, p)]
    {
      if rest == "" {
        p := Err(EINVAL);
      } else {
        p := VnodeLookparent(startvn, rest);
      }
      Decref(startvn);
    }

    /** vfs_lookparent. */
    method LookParent(path: array<char>, ghost s: string) returns (p: Result<(nat, string)>)
      requires Valid() && CString(path[..], 0, s)
      modifies this`refs, this`fsOf, this`owned, this`stuck, this`calls, this`ops, path
      ensures Valid() && owned == old(owned) + Given(Dir(p)) && ops == old(ops) + [LookedParent(s, p)]
      ensures p.Ok? ==> p.value.0 in owned
      ensures p.Err? ==> p.errno != 0
      ensures CString(path[..], 0, Left(s))
      ensures ParentLooked(Parse(s), cwd, bootfs, old(fsOf), p, old(calls), calls)
    {
      var startvn, sub := GetDevice(path, s);
      ghost var c1 := calls;
      if startvn.Err? {
        p := Err(startvn.errno);
      } else {
        var rest := Rest(path, sub, Parse(s).sub);
        p := ParentFrom(startvn.value, rest);
        StartDropped(old(owned), startvn.value, Given(Dir(p)));
      }
      ops := ops + [LookedParent(s, p)];
      assert ParentVia(Parse(s), cwd, bootfs, old(fsOf), startvn, c1, p, old(calls), calls);
    }

    /** vfs_chdir. */
    method Chdir(path: array<char>, ghost s: string) returns (err: nat)
      requires Valid() && CString(path[..], 0, s)
      modifies this, path
      ensures Valid() && owned == old(owned) && bootfs == old(bootfs)
      ensures err != 0 ==> cwd == old(cwd)
      ensures err == 0 ==> |ops| == |old(ops)| + 2 && ops[|ops| - 2].LookedUp? && ops[|ops| - 2].path == s && ops[|ops| - 2].r.Ok? && cwd == Some(ops[|ops| - 2].r.value)
    {
      var r := Lookup(path, s);
      if r.Err? { return r.errno; }
      err := SetCurDir(r.value);
      Decref(r.value);
    }

    // -------------------------------------------------------------- vfspath.c

    /** An operation of vnode.h that returns an error code and takes no reference. */
    method VnodeOp() returns (err: nat)
    {
      err := *;
    }

    /** VOP_CREAT: hands back the file's vnode as VOP_LOOKUP does. */
    method VnodeCreat(dir: nat, name: string, excl: bool) returns (r: Result<nat>)
      requires Valid()
      modifies this`refs, this`fsOf, this`owned, this`ops
      ensures Valid() && owned == old(owned) + Given(r) && ops == old(ops) + [Creat(dir, name, excl, r)]
      ensures r.Ok? ==> r.value in owned
      ensures r.Err? ==> r.errno != 0
    {
      r := MayHandBack();
      ops := ops + [Creat(dir, name, excl, r)];
    }

    /** vfs_open with O_CREAT: the vnode created, or found, in the parent, which is given up. */
    method CreateVnode(path: array<char>, flags: nat, ghost s: string) returns (r: Result<nat>, ghost parent: Parent)
      requires Valid() && CString(path[..], 0, s) && Has(flags, O_CREAT)
      modifies this`refs, this`fsOf, this`owned, this`stuck, this`calls, this`ops, path
      ensures Valid() && owned == old(owned) + Given(r)
      ensures r.Ok? ==> r.value in owned
      ensures r.Err? ==> r.errno != 0
      ensures OpenedVnode(s, flags, parent, r, old(ops), ops)
    {
      var p := LookParent(path, s);
      parent := p;
      if p.Err? {
        r := Err(p.errno);
      } else {
        r := VnodeCreat(p.value.0, p.value.1, Has(flags, O_EXCL));
        Decref(p.value.0);
      }
    }

    /** The first half of vfs_open: the vnode, looked up or created. */
    method OpenVnode(path: array<char>, flags: nat, ghost s: string) returns (r: Result<nat>, ghost parent: Parent)
      requires Valid() && CString(path[..], 0, s)
      modifies this`refs, this`fsOf, this`owned, this`stuck, this`calls, this`ops, path
      ensures Valid() && owned == old(owned) + Given(r)
      ensures r.Ok? ==> r.value in owned
      ensures r.Err? ==> r.errno != 0
      ensures OpenedVnode(s, flags, parent, r, old(ops), ops)
    {
      parent := Err(0);
      if Has(flags, O_CREAT) {
        r, parent := CreateVnode(path, flags, s);
      } else {
        r := Lookup(path, s);
      }
    }

    /** The second half of vfs_open. */
    method OpenSecond(vn: nat, flags: nat, canwrite: bool) returns (r: Result<nat>, ghost e: nat, ghost e2: nat)
      requires Valid() && vn in owned && canwrite == (flags % 4 != 0)
      modifies this`refs, this`owned, this`stuck, this`ops
      ensures Valid() && owned == (if r.Ok? then old(owned) else old(owned) - multiset{vn}) && (r.Ok? ==> r == Ok(vn))
      ensures Opened(flags, Ok(vn), e, e2, r, old(ops), ops)
    {
      e2 := 0;
      var result := VnodeOp();
      e := result;
      ops := ops + [EachOpen(vn, flags, result)];
      if result != 0 {
        Decref(vn);
        return Err(result), e, e2;
      }
      if Has(flags, O_TRUNC) {
        if !canwrite {
          result := EINVAL;
        } else {
          result := VnodeOp();
          e2 := result;
          ops := ops + [Truncate(vn, result)];
        }
        if result != 0 {
          Decref(vn);
          return Err(result), e, e2;
        }
      }
      r := Ok(vn);
    }

    /** vfs_open: on success exactly one reference more, on failure none. */
    method Open(path: array<char>, flags: nat, ghost s: string)
      returns (r: Result<nat>, ghost parent: Parent, ghost v: Result<nat>, ghost o1: seq<Op>, ghost e: nat, ghost e2: nat)
      requires Valid() && CString(path[..], 0, s)
      modifies this`refs, this`fsOf, this`owned, this`stuck, this`calls, this`ops, path
      ensures Valid() && owned == old(owned) + Given(r)
      ensures flags % 4 == O_ACCMODE ==> r == Err(EINVAL) && ops == old(ops)
      ensures flags % 4 != O_ACCMODE ==> OpenedVnode(s, flags, parent, v, old(ops), o1) && Opened(flags, v, e, e2, r, o1, ops)
    {
      parent, v, o1, e, e2 := Err(0), Err(0), ops, 0, 0;
      var how := flags % 4;
      if how == O_ACCMODE { return Err(EINVAL), parent, v, o1, e, e2; }
      var canwrite := how == O_WRONLY || how == O_RDWR;
      r, parent := OpenVnode(path, flags, s);
      v, o1 := r, ops;
      if r.Ok? { r, e, e2 := OpenSecond(r.value, flags, canwrite); }
    }

    /** vfs_close. */
    method Close(v: nat)
      requires Valid() && v in owned
      modifies this`refs, this`owned, this`stuck
      ensures Valid() && owned == old(owned) - multiset{v}
    {
      Decref(v);
    }

    /** vfs_remove, vfs_rmdir, vfs_mkdir and vfs_symlink: look up the parent, do one thing
        there. */
    method InParent(path: array<char>, what: ParentOp, contents: string, ghost s: string) returns (err: nat, ghost parent: Parent)
      requires Valid() && CString(path[..], 0, s)
      modifies this`refs, this`fsOf, this`owned, this`stuck, this`calls, this`ops, path
      ensures Valid() && owned == old(owned)
      ensures DoneInParent(s, what, contents, parent, err, old(ops), ops)
    {
      var p := LookParent(path, s);
      parent := p;
      if p.Err? {
        err := p.errno;
      } else {
        err := VnodeOp();
        ops := ops + [OpIn(what, contents, p.value.0, p.value.1, err)];
        Decref(p.value.0);
      }
    }

    /** vfs_remove. */
    method RemovePath(path: array<char>, ghost s: string) returns (err: nat, ghost p: Parent)
      requires Valid() && CString(path[..], 0, s)
      modifies this`refs, this`fsOf, this`owned, this`stuck, this`calls, this`ops, path
      ensures Valid() && owned == old(owned)
      ensures if p.Err? then ops == old(ops) + [LookedParent(s, p)] && err == p.errno
              else ops == old(ops) + [LookedParent(s, p), Remove(p.value.0, p.value.1, err)]
    {
      err, p := InParent(path, DoRemove, "", s);
    }

    /** vfs_symlink; the path is that of the link. */
    method SymlinkPath(path: array<char>, contents: string, ghost s: string) returns (err: nat, ghost p: Parent)
      requires Valid() && CString(path[..], 0, s)
      modifies this`refs, this`fsOf, this`owned, this`stuck, this`calls, this`ops, path
      ensures Valid() && owned == old(owned)
      ensures if p.Err? then ops == old(ops) + [LookedParent(s, p)] && err == p.errno
              else ops == old(ops) + [LookedParent(s, p), Symlink(p.value.0, p.value.1, contents, err)]
    {
      err, p := InParent(path, DoSymlink, contents, s);
    }

    /** vfs_mkdir. */
    method MkdirPath(path: array<char>, ghost s: string) returns (err: nat, ghost p: Parent)
      requires Valid() && CString(path[..], 0, s)
      modifies this`refs, this`fsOf, this`owned, this`stuck, this`calls, this`ops, path
      ensures Valid() && owned == old(owned)
      ensures if p.Err? then ops == old(ops) + [LookedParent(s, p)] && err == p.errno
              else ops == old(ops) + [LookedParent(s, p), Mkdir(p.value.0, p.value.1, err)]
    {
      err, p := InParent(path, DoMkdir, "", s);
    }

    /** vfs_rmdir. */
    method RmdirPath(path: array<char>, ghost s: string) returns (err: nat, ghost p: Parent)
      requires Valid() && CString(path[..], 0, s)
      modifies this`refs, this`fsOf, this`owned, this`stuck, this`calls, this`ops, path
      ensures Valid() && owned == old(owned)
      ensures if p.Err? then ops == old(ops) + [LookedParent(s, p)] && err == p.errno
              else ops == old(ops) + [LookedParent(s, p), Rmdir(p.value.0, p.value.1, err)]
    {
      err, p := InParent(path, DoRmdir, "", s);
    }

    /** vfs_readlink. */
    method ReadLink(path: array<char>, ghost s: string) returns (err: nat, ghost r: Result<nat>)
      requires Valid() && CString(path[..], 0, s)
      modifies this`refs, this`fsOf, this`owned, this`stuck, this`calls, this`ops, path
      ensures Valid() && owned == old(owned)
      ensures if r.Err? then ops == old(ops) + [LookedUp(s, r)] && err == r.errno
              else ops == old(ops) + [LookedUp(s, r), Readlink(r.value, err)]
    {
      var v := Lookup(path, s);
      r := v;
      if v.Err? {
        err := v.errno;
      } else {
        err := VnodeOp();
        ops := ops + [Readlink(v.value, err)];
        Decref(v.value);
      }
    }

    /** Giving up two vnodes. */
    method DecrefBoth(a: nat, b: nat)
      requires Valid() && multiset{a, b} <= owned
      modifies this`refs, this`owned, this`stuck
      ensures Valid() && owned == old(owned) - multiset{a, b}
    {
      assert a in multiset{a, b} && b in owned - multiset{a};
      Decref(a);
      Decref(b);
    }

    /** The end of vfs_rename, both parents in hand. */
    method RenameIn(olddir: nat, oldname: string, newdir: nat, newname: string) returns (err: nat)
      requires Valid() && multiset{newdir, olddir} <= owned
      modifies this`refs, this`owned, this`stuck, this`ops
      ensures Valid() && owned == old(owned) - multiset{newdir, olddir}
      ensures if OneFs(fsOf, olddir, newdir) then ops == old(ops) + [Rename(olddir, oldname, newdir, newname, err)]
              else ops == old(ops) && err == EXDEV
    {
      assert olddir in multiset{newdir, olddir} && newdir in multiset{newdir, olddir};
      if fsOf[olddir] == 0 || fsOf[newdir] == 0 || fsOf[olddir] != fsOf[newdir] {
        err := EXDEV;
      } else {
        err := VnodeOp();
        ops := ops + [Rename(olddir, oldname, newdir, newname, err)];
      }
      DecrefBoth(newdir, olddir);
    }

    /** The end of vfs_link, the file and the parent in hand. */
    method LinkIn(oldfile: nat, newdir: nat, newname: string) returns (err: nat)
      requires Valid() && multiset{newdir, oldfile} <= owned
      modifies this`refs, this`owned, this`stuck, this`ops
      ensures Valid() && owned == old(owned) - multiset{newdir, oldfile}
      ensures if OneFs(fsOf, oldfile, newdir) then ops == old(ops) + [Link(newdir, newname, oldfile, err)]
              else ops == old(ops) && err == EXDEV
    {
      assert oldfile in multiset{newdir, oldfile} && newdir in multiset{newdir, oldfile};
      if fsOf[oldfile] == 0 || fsOf[newdir] == 0 || fsOf[oldfile] != fsOf[newdir] {
        err := EXDEV;
      } else {
        err := VnodeOp();
        ops := ops + [Link(newdir, newname, oldfile, err)];
      }
      DecrefBoth(newdir, oldfile);
    }

    /** vfs_rename from the second lookup on. */
    method RenameTo(olddir: nat, oldname: string, newpath: array<char>, ghost s2: string) returns (err: nat, ghost q: Parent)
      requires Valid() && olddir in owned && CString(newpath[..], 0, s2)
      modifies this`refs, this`fsOf, this`owned, this`stuck, this`calls, this`ops, newpath
      ensures Valid() && owned == old(owned) - multiset{olddir}
      ensures RenamedTo(s2, fsOf, olddir, oldname, q, err, old(ops), ops)
    {
      var n := LookParent(newpath, s2);
      q := n;
      if n.Err? {
        Decref(olddir);
        err := n.errno;
      } else {
        InHand(old(owned), olddir, n.value.0);
        err := RenameIn(olddir, oldname, n.value.0, n.value.1);
      }
    }

    /** vfs_rename: no reference is left behind on any path. */
    method RenamePath(oldpath: array<char>, newpath: array<char>, ghost s1: string, ghost s2: string)
      returns (err: nat, ghost p: Parent, ghost q: Parent)
      requires Valid() && CString(oldpath[..], 0, s1) && CString(newpath[..], 0, s2)
      modifies this`refs, this`fsOf, this`owned, this`stuck, this`calls, this`ops, oldpath, newpath
      ensures Valid() && owned == old(owned)
      ensures Renamed(s1, if newpath == oldpath then Left(s1) else s2, fsOf, p, q, err, old(ops), ops)
    {
      var o := LookParent(oldpath, s1);
      p, q := o, Err(0);
      if o.Err? {
        err := o.errno;
      } else {
        err, q := RenameTo(o.value.0, o.value.1, newpath, if newpath == oldpath then Left(s1) else s2);
      }
    }

    /** vfs_link from the second lookup on. */
    method LinkTo(oldfile: nat, newpath: array<char>, ghost s2: string) returns (err: nat, ghost q: Parent)
      requires Valid() && oldfile in owned && CString(newpath[..], 0, s2)
      modifies this`refs, this`fsOf, this`owned, this`stuck, this`calls, this`ops, newpath
      ensures Valid() && owned == old(owned) - multiset{oldfile}
      ensures LinkedTo(s2, fsOf, oldfile, q, err, old(ops), ops)
    {
      var n := LookParent(newpath, s2);
      q := n;
      if n.Err? {
        Decref(oldfile);
        err := n.errno;
      } else {
        InHand(old(owned), oldfile, n.value.0);
        err := LinkIn(oldfile, n.value.0, n.value.1);
      }
    }

    /** vfs_link: no reference is left behind on any path. */
    method LinkPath(oldpath: array<char>, newpath: array<char>, ghost s1: string, ghost s2: string)
      returns (err: nat, ghost p: Result<nat>, ghost q: Parent)
      requires Valid() && CString(oldpath[..], 0, s1) && CString(newpath[..], 0, s2)
      modifies this`refs, this`fsOf, this`owned, this`stuck, this`calls, this`ops, oldpath, newpath
      ensures Valid() && owned == old(owned)
      ensures Linked(s1, if newpath == oldpath then Left(s1) else s2, fsOf, p, q, err, old(ops), ops)
    {
      var o := Lookup(oldpath, s1);
      p, q := o, Err(0);
      if o.Err? {
        err := o.errno;
      } else {
        err, q := LinkTo(o.value, newpath, if newpath == oldpath then Left(s1) else s2);
      }
    }

    /** The root of the current directory's file system. */
    method CurrentRoot() returns (r: Result<nat>)
      requires Valid()
      modifies this`refs, this`fsOf, this`owned, this`stuck, this`calls
      ensures Valid() && owned == old(owned) + Given(r)
      ensures r.Ok? ==> r.value in owned
      ensures r.Err? ==> r.errno != 0
      ensures cwd.None? ==> r == Err(ENOENT) && calls == old(calls)
      ensures cwd.Some? ==> cwd.value in old(fsOf) && calls == old(calls) + [FsRoot(old(fsOf)[cwd.value], r)]
    {
      var c := GetCurDir();
      if c.Err? { return c; }
      var vn := c.value;
      assert fsOf[vn] != 0;
      r := GetFsRoot(fsOf[vn]);
      Decref(vn);
    }
  }

  /** Where a path starts, and the one call it may take to find out. */
  ghost predicate Started(p: Start, cwd: Option<nat>, bootfs: Option<nat>, fsOf: map<nat, nat>, r: Result<nat>,
                          calls: seq<Call>, calls': seq<Call>)
  {
    match p
    case Relative(_) => calls' == calls && r == if cwd.Some? then Ok(cwd.value) else Err(ENOENT)
    case Boot(_) => calls' == calls && r == if bootfs.Some? then Ok(bootfs.value) else Err(ENOENT)
    case Device(dev, _) => calls' == calls + [DeviceRoot(dev, r)]
    case CurRoot(_) =>
      if cwd.None? then calls' == calls && r == Err(ENOENT)
      else cwd.value in fsOf && calls' == calls + [FsRoot(fsOf[cwd.value], r)]
  }

  /** The file systems of two vnodes are one, and not none. */
  ghost predicate OneFs(fsOf: map<nat, nat>, a: nat, b: nat) {
    a in fsOf && b in fsOf && fsOf[a] != 0 && fsOf[a] == fsOf[b]
  }

  type Parent = Result<(nat, string)>

  /** vfs_rename: both parents, in order, and then one VOP_RENAME if they are on one file
      system; otherwise EXDEV. */
  ghost predicate Renamed(s1: string, s2: string, fsOf: map<nat, nat>, p: Parent, q: Parent, err: nat, o0: seq<Op>, o: seq<Op>) {
    if p.Err? then o == o0 + [LookedParent(s1, p)] && err == p.errno
    else RenamedTo(s2, fsOf, p.value.0, p.value.1, q, err, o0 + [LookedParent(s1, p)], o)
  }

  ghost predicate RenamedTo(s2: string, fsOf: map<nat, nat>, dir: nat, name: string, q: Parent, err: nat, o0: seq<Op>, o: seq<Op>) {
    if q.Err? then o == o0 + [LookedParent(s2, q)] && err == q.errno
    else if !OneFs(fsOf, dir, q.value.0) then o == o0 + [LookedParent(s2, q)] && err == EXDEV
    else o == o0 + [LookedParent(s2, q)] + [Rename(dir, name, q.value.0, q.value.1, err)]
  }

  /** vfs_link: the file, then the parent, and then one VOP_LINK, or EXDEV. */
  ghost predicate Linked(s1: string, s2: string, fsOf: map<nat, nat>, f: Result<nat>, q: Parent, err: nat, o0: seq<Op>, o: seq<Op>) {
    if f.Err? then o == o0 + [LookedUp(s1, f)] && err == f.errno
    else LinkedTo(s2, fsOf, f.value, q, err, o0 + [LookedUp(s1, f)], o)
  }

  ghost predicate LinkedTo(s2: string, fsOf: map<nat, nat>, file: nat, q: Parent, err: nat, o0: seq<Op>, o: seq<Op>) {
    if q.Err? then o == o0 + [LookedParent(s2, q)] && err == q.errno
    else if !OneFs(fsOf, file, q.value.0) then o == o0 + [LookedParent(s2, q)] && err == EXDEV
    else o == o0 + [LookedParent(s2, q)] + [Link(q.value.0, q.value.1, file, err)]
  }

  ghost predicate OpenedVnode(s: string, flags: nat, p: Parent, r: Result<nat>, o0: seq<Op>, o1: seq<Op>) {
    if !Has(flags, O_CREAT) then o1 == o0 + [LookedUp(s, r)]
    else if p.Err? then o1 == o0 + [LookedParent(s, p)] && r == Err(p.errno)
    else o1 == o0 + [LookedParent(s, p), Creat(p.value.0, p.value.1, Has(flags, O_EXCL), r)]
  }

  /** The second half of vfs_open: open, then truncate if asked and allowed; any error is
      the result. */
  ghost predicate Opened(flags: nat, v: Result<nat>, e: nat, e2: nat, r: Result<nat>, o1: seq<Op>, o2: seq<Op>) {
    if v.Err? then r == v && o2 == o1
    else if e != 0 then o2 == o1 + [EachOpen(v.value, flags, e)] && r == Err(e)
    else if !Has(flags, O_TRUNC) then o2 == o1 + [EachOpen(v.value, flags, 0)] && r == v
    else if flags % 4 == 0 then o2 == o1 + [EachOpen(v.value, flags, 0)] && r == Err(EINVAL)
    else o2 == o1 + [EachOpen(v.value, flags, 0), Truncate(v.value, e2)] && r == if e2 == 0 then v else Err(e2)
  }

  datatype ParentOp = DoRemove | DoRmdir | DoMkdir | DoSymlink

  function OpIn(what: ParentOp, contents: string, dir: nat, name: string, err: nat): Op {
    match what
    case DoRemove => Remove(dir, name, err)
    case DoRmdir => Rmdir(dir, name, err)
    case DoMkdir => Mkdir(dir, name, err)
    case DoSymlink => Symlink(dir, name, contents, err)
  }

  ghost predicate DoneInParent(s: string, what: ParentOp, contents: string, p: Result<(nat, string)>, err: nat, o0: seq<Op>, o: seq<Op>) {
    if p.Err? then o == o0 + [LookedParent(s, p)] && err == p.errno
    else o == o0 + [LookedParent(s, p), OpIn(what, contents, p.value.0, p.value.1, err)]
  }

  /** The reference that comes with a parent. */
  function Dir(p: Result<(nat, string)>): Result<nat> {
    if p.Ok? then Ok(p.value.0) else Err(p.errno)
  }

  /** vfs_lookup: the start itself when nothing is left of the path, else VOP_LOOKUP of what
      is left from it. */
  ghost predicate Looked(p: Start, cwd: Option<nat>, bootfs: Option<nat>, fsOf: map<nat, nat>, r: Result<nat>, c0: seq<Call>, c2: seq<Call>) {
    exists start, c1 :: LookedVia(p, cwd, bootfs, fsOf, start, c1, r, c0, c2)
  }

  ghost predicate LookedVia(p: Start, cwd: Option<nat>, bootfs: Option<nat>, fsOf: map<nat, nat>,
                            start: Result<nat>, c1: seq<Call>, r: Result<nat>, c0: seq<Call>, c2: seq<Call>)
  {
    && Started(p, cwd, bootfs, fsOf, start, c0, c1)
    && if start.Err? || p.sub == "" then r == start && c2 == c1 else c2 == c1 + [VopLookup(start.value, p.sub, r)]
  }

  /** vfs_lookparent: an error when nothing is left, else VOP_LOOKPARENT. */
  ghost predicate ParentLooked(p: Start, cwd: Option<nat>, bootfs: Option<nat>, fsOf: map<nat, nat>,
                               q: Result<(nat, string)>, c0: seq<Call>, c2: seq<Call>)
  {
    exists start, c1 :: ParentVia(p, cwd, bootfs, fsOf, start, c1, q, c0, c2)
  }

  ghost predicate ParentVia(p: Start, cwd: Option<nat>, bootfs: Option<nat>, fsOf: map<nat, nat>,
                            start: Result<nat>, c1: seq<Call>, q: Result<(nat, string)>, c0: seq<Call>, c2: seq<Call>)
  {
    && Started(p, cwd, bootfs, fsOf, start, c0, c1)
    && if start.Err? then q == Err(start.errno) && c2 == c1
       else if p.sub == "" then q == Err(EINVAL) && c2 == c1
       else c2 == c1 + [VopLookparent(start.value, p.sub, q)]
  }

  lemma {:induction false} NoSep(s: string, i: nat)
    requires i <= |s| && forall j :: i <= j < |s| ==> s[j] != ':' && s[j] != '/'
    ensures FirstSep(s, i) == |s|
    decreases |s| - i
  {
    if i < |s| { NoSep(s, i + 1); }
  }

  /** The reference that comes with a result. */
  ghost function Given(r: Result<nat>): multiset<nat> {
    if r.Ok? then multiset{r.value} else multiset{}
  }
}
