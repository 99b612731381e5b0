/** Path resolution over the mount table, src/c/mount.c. */
module Mount {
  const PATH_MAX: nat := 256
  const NINEP_PREFIX := "/9p"

  datatype FsType = Fat32 | Fat16 | OtherFs
  datatype Entry = Entry(path: string, device: nat, fsType: FsType)
  datatype Target = Nothing | OnFat32(device: nat) | OnFat16(device: nat) | OnHost
  datatype Candidate = Candidate(path: string, target: Target)

  // ---------------------------------------------------------------- C strings

  predicate NoNul(s: string) { forall i :: 0 <= i < |s| ==> s[i] != '\0' }

  /** What C code finds at an index of a NUL-terminated string. */
  function CharAt(s: string, i: nat): char { if i < |s| then s[i] else '\0' }

  function UpToNul(s: string): (t: string)
    ensures NoNul(t) && |t| <= |s| && t == s[..|t|] && (|t| < |s| ==> s[|t|] == '\0')
  {
    if s == "" || s[0] == '\0' then "" else [s[0]] + UpToNul(s[1..])
  }

  /** os_string_to_cstr into a buffer of the given size */
  function CString(s: string, cap: nat): (t: string)
    requires 0 < cap
    ensures NoNul(t) && |t| < cap
  {
    UpToNul(if |s| < cap then s else s[..cap - 1])
  }

  // ---------------------------------------------------------------- what resolution should find

  /** A prefix of the path that ends where a component of it ends; "/" is a prefix of every absolute
      path. */
  predicate Covers(mount: string, path: string) {
    mount <= path && (mount == "/" || |mount| == |path| || path[|mount|] == '/')
  }

  function TargetOf(entry: Entry): Target {
    match entry.fsType
    case Fat32 => OnFat32(entry.device)
    case Fat16 => OnFat16(entry.device)
    case OtherFs => Nothing
  }

  function Supported(mounts: seq<Entry>): (candidates: seq<Candidate>)
    ensures forall i :: 0 <= i < |candidates| ==> NoNul(candidates[i].path) && !candidates[i].target.Nothing?
  {
    if mounts == [] then []
    else
      var last := mounts[|mounts| - 1];
      Supported(mounts[..|mounts| - 1])
      + if last.fsType == OtherFs then [] else [Candidate(CString(last.path, PATH_MAX), TargetOf(last))]
  }

  /** The supported mounts in the order of the table, then the built-in one. */
  function Candidates(mounts: seq<Entry>): (candidates: seq<Candidate>)
    ensures forall i :: 0 <= i < |candidates| ==> NoNul(candidates[i].path) && !candidates[i].target.Nothing?
  {
    Supported(mounts) + [Candidate(NINEP_PREFIX, OnHost)]
  }

  /** The longest that covers the path, the earliest of these. */
  ghost predicate Best(candidates: seq<Candidate>, path: string, k: nat) {
    && k < |candidates| && Covers(candidates[k].path, path)
    && forall j :: 0 <= j < |candidates| && Covers(candidates[j].path, path) ==>
         |candidates[j].path| < |candidates[k].path| || (|candidates[j].path| == |candidates[k].path| && k <= j)
  }

  ghost predicate NoneCovers(candidates: seq<Candidate>, path: string) {
    forall j :: 0 <= j < |candidates| ==> !Covers(candidates[j].path, path)
  }

  /** The path as the mounted file system sees it. */
  function Relative(mount: string, path: string): string
    requires Covers(mount, path)
  {
    if mount == "/" then path else path[|mount|..]
  }

  // ---------------------------------------------------------------- the code

  /** mount_path_match_len */
  method MatchLen(mount: string, path: string) returns (len: int)
    requires NoNul(mount) && NoNul(path)
    ensures len == if Covers(mount, path) then |mount| else -1
  {
    var i := 0;
    while CharAt(mount, i) != '\0'
      invariant i <= |mount| && i <= |path| && mount[..i] == path[..i]
      decreases |mount| - i
    {
      if CharAt(path, i) != CharAt(mount, i) {
        return -1;
      }
      i := i + 1;
    }
    assert mount == mount[..i];
    if i == 1 && mount[0] == '/' { return i; }
    if CharAt(path, i) == '\0' || CharAt(path, i) == '/' { return i; }
    return -1;
  }

  /** The best so far among the candidates already looked at. */
  ghost predicate Leading(seen: seq<Candidate>, path: string, bestLen: int, bestIsRoot: bool, target: Target,
          which: nat) {
    if bestLen < 0 then bestLen == -1 && target == Nothing && NoneCovers(seen, path)
    else
      && Best(seen, path, which) && bestLen == |seen[which].path|
      && bestIsRoot == (seen[which].path == "/") && target == seen[which].target && target != Nothing
  }

  lemma NextCandidate(seen: seq<Candidate>, c: Candidate, path: string, bestLen: int, bestIsRoot: bool,
          target: Target, which: nat)
    requires Leading(seen, path, bestLen, bestIsRoot, target, which) && c.target != Nothing
    ensures if Covers(c.path, path) && |c.path| > bestLen
            then Leading(seen + [c], path, |c.path|, c.path == "/", c.target, |seen|)
            else Leading(seen + [c], path, bestLen, bestIsRoot, target, which)
  {
    var all := seen + [c];
    assert all[|seen|] == c;
    forall j | 0 <= j < |seen|
      ensures all[j] == seen[j]
    {
    }
  }

  method FindBest(mounts: seq<Entry>, path: string)
    returns (bestLen: int, bestIsRoot: bool, target: Target, ghost which: nat)
    requires NoNul(path)
    ensures Leading(Candidates(mounts), path, bestLen, bestIsRoot, target, which)
  {
    bestLen, bestIsRoot, target, which := -1, false, Nothing, 0;
    for i := 0 to |mounts|
      invariant Leading(Supported(mounts[..i]), path, bestLen, bestIsRoot, target, which)
    {
      var entry := mounts[i];
      assert mounts[..i + 1][..i] == mounts[..i];
      if entry.fsType != OtherFs {
        var mountPath := CString(entry.path, PATH_MAX);
        NextCandidate(Supported(mounts[..i]), Candidate(mountPath, TargetOf(entry)), path, bestLen, bestIsRoot,
            target, which);
        var m := MatchLen(mountPath, path);
        if m > bestLen {
          bestLen, target := m, TargetOf(entry);
          bestIsRoot := CharAt(mountPath, 0) == '/' && CharAt(mountPath, 1) == '\0';
          which := |Supported(mounts[..i])|;
        }
      }
    }
    assert mounts[..|mounts|] == mounts;
    NextCandidate(Supported(mounts), Candidate(NINEP_PREFIX, OnHost), path, bestLen, bestIsRoot, target, which);
    var p9Len := MatchLen(NINEP_PREFIX, path);
    if p9Len > bestLen {
      bestLen, bestIsRoot, target := p9Len, false, OnHost;
      which := |Supported(mounts)|;
    }
  }

  /** os_mount_resolve */
  method Resolve(mounts: seq<Entry>, path: string, relative: array<char>) returns (target: Target, ghost which: nat)
    requires NoNul(path) && 0 < relative.Length
    modifies relative
    ensures target == Nothing <==> NoneCovers(Candidates(mounts), path)
    ensures target != Nothing ==> Best(Candidates(mounts), path, which) && target == Candidates(mounts)[which].target
    ensures target != Nothing ==>
              var whole := Relative(Candidates(mounts)[which].path, path);
              var n := if |whole| < relative.Length then |whole| else relative.Length - 1;
              relative[..n + 1] == whole[..n] + "\0"
    ensures target == Nothing ==> relative[..] == old(relative[..])
  {
    var bestLen, bestIsRoot;
    bestLen, bestIsRoot, target, which := FindBest(mounts, path);
    if target == Nothing { return; }
    CopyFrom(path, if bestIsRoot then 0 else bestLen, relative);
  }

  method CopyFrom(path: string, from: nat, relative: array<char>)
    requires NoNul(path) && from <= |path| && 0 < relative.Length
    modifies relative
    ensures var n := if |path| - from < relative.Length then |path| - from else relative.Length - 1;
            relative[..n + 1] == path[from..][..n] + "\0"
  {
    var i := 0;
    while CharAt(path, from + i) != '\0' && i + 1 < relative.Length
      invariant i < relative.Length && from + i <= |path|
      invariant relative[..i] == path[from..from + i]
      decreases relative.Length - i
    {
      relative[i] := path[from + i];
      i := i + 1;
    }
    relative[i] := '\0';
    assert path[from..][..i] == path[from..from + i];
  }

  // ---------------------------------------------------------------- what that means

  lemma BestIsUnique(candidates: seq<Candidate>, path: string, k: nat, l: nat)
    requires Best(candidates, path, k) && Best(candidates, path, l)
    ensures k == l
  {
  }

  /** The mount's path and the relative path make up the path; a relative path is empty or absolute. */
  lemma PathIsSplit(mount: string, path: string)
    requires Covers(mount, path)
    ensures mount != "/" ==> mount + Relative(mount, path) == path
    ensures mount == "/" ==> Relative(mount, path) == path
    ensures Relative(mount, path) == "" || mount == "" || Relative(mount, path)[0] == '/'
  {
  }

  /** A supported mount at /9p hides the built-in one, and nothing shorter does. */
  lemma {:induction false} BuiltInLosesTies(mounts: seq<Entry>, path: string, k: nat)
    requires Best(Candidates(mounts), path, k)
    ensures Candidates(mounts)[k].target == OnHost <==>
              && Covers(NINEP_PREFIX, path)
              && forall j :: 0 <= j < |Supported(mounts)| && Covers(Supported(mounts)[j].path, path) ==>
                   |Supported(mounts)[j].path| < |NINEP_PREFIX|
  {
    var all, own := Candidates(mounts), Supported(mounts);
    forall j | 0 <= j < |own|
      ensures all[j] == own[j]
    {
    }
    assert all[|own|] == Candidate(NINEP_PREFIX, OnHost);
    NeverTheHost(mounts);
    if k == |own| {
      forall j | 0 <= j < |own| && Covers(own[j].path, path)
        ensures |own[j].path| < |NINEP_PREFIX|
      {
        assert Covers(all[j].path, path);
      }
    } else {
      assert all[k] == own[k] && Covers(own[k].path, path);
      assert Covers(NINEP_PREFIX, path) ==> Covers(all[|own|].path, path);
    }
  }

  lemma {:induction false} NeverTheHost(mounts: seq<Entry>)
    ensures forall j :: 0 <= j < |Supported(mounts)| ==> Supported(mounts)[j].target != OnHost
  {
    if mounts != [] { NeverTheHost(mounts[..|mounts| - 1]); }
  }

  /** Every mount of a supported kind is found by its own paths: it, or a longer or earlier one. */
  lemma {:induction false} MountsAreSeen(mounts: seq<Entry>, i: nat)
    requires i < |mounts| && mounts[i].fsType != OtherFs
    ensures exists j :: 0 <= j < |Supported(mounts)| &&
              Supported(mounts)[j] == Candidate(CString(mounts[i].path, PATH_MAX), TargetOf(mounts[i]))
    decreases |mounts|
  {
    var rest := mounts[..|mounts| - 1];
    if i == |rest| {
      assert Supported(mounts)[|Supported(rest)|] == Candidate(CString(mounts[i].path, PATH_MAX), TargetOf(mounts[i]));
    } else {
      MountsAreSeen(rest, i);
      var j :| 0 <= j < |Supported(rest)| && Supported(rest)[j] ==
          Candidate(CString(mounts[i].path, PATH_MAX), TargetOf(mounts[i]));
      assert Supported(mounts)[j] == Supported(rest)[j];
    }
  }
}
