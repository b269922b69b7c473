/**
 * The directory `GANTrainer.sample` writes its images to:
 * `net_g[:net_g.find('.pth')]`, with Python's `str.find` (the first index at
 * which the pattern occurs, or -1) and Python's slice `s[:k]` (a negative `k`
 * counts from the end, so -1 drops the last character).
 */
module SavePath {

  const CHECKPOINT_EXTENSION := ".pth"

  /** `pat` occurs in `s` starting at index `i`. */
  predicate OccursAt(s: string, pat: string, i: int) {
    0 <= i && i + |pat| <= |s| && s[i..i + |pat|] == pat
  }

  predicate Contains(s: string, pat: string) {
    exists i :: 0 <= i <= |s| && OccursAt(s, pat, i)
  }

  function FindFrom(s: string, pat: string, i: nat): (r: int)
    ensures r == -1 || (i <= r && OccursAt(s, pat, r))
    ensures forall j :: i <= j && (r == -1 || j < r) ==> !OccursAt(s, pat, j)
    decreases |s| - i
  {
    if i + |pat| > |s| then -1
    else if OccursAt(s, pat, i) then i
    else FindFrom(s, pat, i + 1)
  }

  /**
   * Python's `s.find(pat)`: the first index at which `pat` occurs in `s`, or -1
   * when it occurs nowhere.
   */
  function Find(s: string, pat: string): (r: int)
    ensures r == -1 || OccursAt(s, pat, r)
    ensures forall j :: 0 <= j && (r == -1 || j < r) ==> !OccursAt(s, pat, j)
    ensures r == -1 <==> !Contains(s, pat)
  {
    FindFrom(s, pat, 0)
  }

  /** Python's `s[:k]`: a negative `k` counts from the end; both ends are clamped. */
  function SliceTo(s: string, k: int): (r: string)
    ensures k >= 0 ==> r == s[..if k <= |s| then k else |s|]
    ensures k < 0 ==> r == s[..if |s| + k >= 0 then |s| + k else 0]
  {
    if k >= 0 then (if k <= |s| then s[..k] else s)
    else if |s| + k >= 0 then s[..|s| + k]
    else []
  }

  /** `net_g[:net_g.find('.pth')]` */
  function SaveDir(netG: string): (dir: string)
    ensures |dir| <= |netG| && dir == netG[..|dir|]
  {
    SliceTo(netG, Find(netG, CHECKPOINT_EXTENSION))
  }

  /**
   * When the checkpoint path holds ".pth", the directory is the part before its
   * first occurrence: it is followed by ".pth" and holds no ".pth" itself.
   */
  lemma SaveDirFound(netG: string)
    requires Contains(netG, CHECKPOINT_EXTENSION)
    ensures var dir := SaveDir(netG);
      && |dir| + 4 <= |netG|
      && netG[..|dir| + 4] == dir + CHECKPOINT_EXTENSION
      && !Contains(dir, CHECKPOINT_EXTENSION)
  {
    var k := Find(netG, CHECKPOINT_EXTENSION);
    var dir := SaveDir(netG);
    assert 0 <= k && dir == netG[..k];
    assert netG[..k + 4] == netG[..k] + netG[k..k + 4];
    forall j | 0 <= j <= |dir| ensures !OccursAt(dir, CHECKPOINT_EXTENSION, j) {
      if j + 4 <= |dir| {
        assert dir[j..j + 4] == netG[j..j + 4];
        assert !OccursAt(netG, CHECKPOINT_EXTENSION, j);
      }
    }
  }

  /**
   * When ".pth" is absent `find` returns -1 and the slice drops the path's last
   * character (an empty path stays empty).
   */
  lemma SaveDirAbsent(netG: string)
    requires !Contains(netG, CHECKPOINT_EXTENSION)
    ensures |netG| > 0 ==> SaveDir(netG) == netG[..|netG| - 1]
    ensures |netG| == 0 ==> SaveDir(netG) == ""
  {
  }

  /**
   * A checkpoint named `p + ".pth" + rest`, where `p` holds no ".pth", is sampled
   * into the directory `p`.
   */
  lemma SaveDirOfCheckpoint(p: string, rest: string)
    requires !Contains(p, CHECKPOINT_EXTENSION)
    ensures SaveDir(p + CHECKPOINT_EXTENSION + rest) == p
  {
    var s := p + CHECKPOINT_EXTENSION + rest;
    var n := |p|;
    assert OccursAt(s, CHECKPOINT_EXTENSION, n) by {
      assert s[n..n + 4] == CHECKPOINT_EXTENSION;
    }
    forall j | 0 <= j < n
      ensures !OccursAt(s, CHECKPOINT_EXTENSION, j)
    {
      if j + 4 <= n {
        assert s[j..j + 4] == p[j..j + 4];
        assert !OccursAt(p, CHECKPOINT_EXTENSION, j);
      } else {
        // the window holds the '.' at index n at a place where ".pth" has no '.'
        var w := s[j..j + 4];
        assert w[n - j] == s[n] == '.';
        assert CHECKPOINT_EXTENSION[n - j] != '.';
      }
    }
    var k := Find(s, CHECKPOINT_EXTENSION);
    assert k == n;
    assert s[..n] == p;
  }

  /** A path without a '.' holds no ".pth". */
  lemma NoDotNoExtension(p: string)
    requires '.' !in p
    ensures !Contains(p, CHECKPOINT_EXTENSION)
  {
    forall j | 0 <= j <= |p| ensures !OccursAt(p, CHECKPOINT_EXTENSION, j) {
      if j + 4 <= |p| {
        assert p[j] in p;
        assert p[j..j + 4][0] == p[j] != '.';
      }
    }
  }

  /** The usual checkpoint name, and a name without the extension. */
  lemma SaveDirExamples()
    ensures SaveDir("models/netG_epoch_600.pth") == "models/netG_epoch_600"
    ensures SaveDir("netG") == "net"
  {
    var p := "models/netG_epoch_600";
    NoDotNoExtension(p);
    SaveDirOfCheckpoint(p, "");
    assert p + CHECKPOINT_EXTENSION + "" == "models/netG_epoch_600.pth";
    NoDotNoExtension("netG");
    SaveDirAbsent("netG");
  }
}
