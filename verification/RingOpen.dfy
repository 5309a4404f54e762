/**
  Creating, attaching to and reclaiming a ring file (c/jts-ring-ioplug/jts_ring_shm.c,
  ring_mapping_open). The open lock serialises openers, so one opener runs at a time against the
  file system; before each of its system calls and header stores it may find an error, be killed,
  or have an outsider remove the pathname, as a script decides.
 */
module RingOpen {
  import opened Options

  const U64: nat := 0x1_0000_0000_0000_0000
  const HEADER_BYTES: nat := 128
  const VERSION: u32 := 1
  const RATE_HZ: nat := 48000
  const S16LE: nat := 1
  const S32LE: nat := 2
  const MAX_SLOT_BYTES: nat := 65536
  const OPEN_MAX_ATTEMPTS: nat := 8

  type u32 = x: int | 0 <= x < 0x1_0000_0000

  // ----- geometry -------------------------------------------------------------------------

  datatype Geometry =
    Geometry(rate: u32, channels: u32, sampleFormat: u32, periodFrames: u32, nSlots: u32)
  {
    function BytesPerSample(): nat { if sampleFormat == S32LE then 4 else 2 }

    // size_t arithmetic wraps: an attacher computes this from a header it has not validated.
    function SlotBytes(): nat { periodFrames * channels % U64 * BytesPerSample() % U64 }

    function FileSize(): nat { (HEADER_BYTES + nSlots * SlotBytes() % U64) % U64 }

    predicate Accepted() {
      && (sampleFormat == S16LE || sampleFormat == S32LE)
      && 2 <= channels <= 8
      && rate == RATE_HZ
      && periodFrames > 0
      && 2 <= nSlots <= 16
      && SlotBytes() <= MAX_SLOT_BYTES
    }

    // The config words of the header, in layout order.
    function Words(): seq<u32> { [VERSION, rate, channels, sampleFormat, periodFrames, nSlots] }
  }

  lemma AcceptedSlotIsExact(g: Geometry)
    requires g.channels <= 8
    ensures g.SlotBytes() == g.periodFrames * g.channels * g.BytesPerSample()
  {
    MulMono(g.channels, 8, g.periodFrames);
    NoWrap(g.periodFrames * g.channels);
    NoWrap(g.periodFrames * g.channels * g.BytesPerSample());
  }

  /** What is accepted, over the integers: 48 kHz, two to eight channels of two- or four-byte samples, two
      to sixteen slots of at most 64 KiB. */
  lemma AcceptedIff(g: Geometry)
    ensures g.Accepted() <==>
              && g.rate == 48000 && 2 <= g.channels <= 8 && 2 <= g.nSlots <= 16
              && (g.sampleFormat == S16LE || g.sampleFormat == S32LE)
              && 0 < g.periodFrames * (g.channels * if g.sampleFormat == S16LE then 2 else 4) <= 65536
  {
    if 2 <= g.channels <= 8 && (g.sampleFormat == S16LE || g.sampleFormat == S32LE) {
      AcceptedSlotIsExact(g);
      Regroup(g.periodFrames, g.channels, g.BytesPerSample());
      hide Geometry.SlotBytes;
      assert g.periodFrames > 0 <==> g.periodFrames * (g.channels * g.BytesPerSample()) > 0;
    }
  }

  lemma Regroup(a: nat, b: nat, c: nat)
    ensures a * b * c == a * (b * c)
  {
  }

  /** An accepted geometry asks the kernel for a file of its exact size, at most 1 MiB of slots. */
  lemma AcceptedSizeIsExact(g: Geometry)
    requires g.Accepted()
    ensures g.FileSize()
            == 128 + g.nSlots * (g.periodFrames * g.channels * if g.sampleFormat == S16LE then 2 else 4)
    ensures HEADER_BYTES <= g.FileSize() <= HEADER_BYTES + 16 * MAX_SLOT_BYTES
  {
    AcceptedSlotIsExact(g);
    hide Geometry.SlotBytes;
    MulMono(g.nSlots, 16, g.SlotBytes());
    NoWrap(g.nSlots * g.SlotBytes());
    NoWrap(HEADER_BYTES + g.nSlots * g.SlotBytes());
  }

  lemma MulMono(a: nat, b: nat, k: nat)
    ensures a <= b ==> a * k <= b * k && k * a <= k * b
  {
  }

  lemma NoWrap(x: nat)
    ensures x < U64 ==> x % U64 == x
  {
  }

  // ----- the owned directory --------------------------------------------------------------

  const OWNED_DIR: string := "/dev/shm/jts-ring"

  // strncmp(path, dir, n) == 0 for the n characters of dir.
  predicate BeginsWith(path: string, dir: string) {
    dir == "" || (path != "" && path[0] == dir[0] && BeginsWith(path[1..], dir[1..]))
  }

  // strchr(s, '/') != NULL
  predicate HasSlash(s: string) { s != "" && (s[0] == '/' || HasSlash(s[1..])) }

  predicate OwnedRingPath(path: string) {
    var n := |OWNED_DIR|;
    && BeginsWith(path, OWNED_DIR) && n < |path| && path[n] == '/'
    && path[n + 1..] != "" && !HasSlash(path[n + 1..])
  }

  lemma {:induction false} BeginsWithIsPrefix(path: string, dir: string)
    ensures BeginsWith(path, dir) <==> dir <= path
  {
    if dir != "" && path != "" {
      BeginsWithIsPrefix(path[1..], dir[1..]);
      if dir[1..] <= path[1..] && dir[0] == path[0] { assert path[..|dir|] == [path[0]] + path[1..][..|dir| - 1]; }
      if dir <= path { assert path[1..][..|dir| - 1] == path[..|dir|][1..]; }
    }
  }

  lemma HasSlashIsMember(s: string)
    ensures HasSlash(s) <==> '/' in s
  {
    if s != "" { HasSlashIsMember(s[1..]); }
  }

  /** A path is owned exactly if it is the owned directory, a slash, and one non-empty name. */
  lemma OwnedIffDirectChild(path: string)
    ensures OwnedRingPath(path) <==> exists name :: name != "" && '/' !in name && path == OWNED_DIR + "/" + name
  {
    var n := |OWNED_DIR|;
    BeginsWithIsPrefix(path, OWNED_DIR);
    if OwnedRingPath(path) {
      var name := path[n + 1..];
      HasSlashIsMember(name);
      assert path == path[..n] + [path[n]] + name;
    }
    if name :| name != "" && '/' !in name && path == OWNED_DIR + "/" + name {
      HasSlashIsMember(name);
      assert path[n + 1..] == name && path[..n] == OWNED_DIR;
    }
  }

  // ----- the file system ------------------------------------------------------------------

  type Ino = nat

  // Size, the six config words, and whether the magic qword has been stored.
  datatype Inode = Inode(size: nat, words: seq<u32>, magic: bool)

  const Blank := Inode(0, [0, 0, 0, 0, 0, 0], false)

  datatype Errno = EINVAL | EAGAIN | ENOENT | EEXIST | Errno(code: nat)

  datatype Outcome = Ok | Fail(errno: Errno) | Killed | OutsiderUnlink

  datatype Verdict = Proceed | Error(errno: Errno) | Dead

  // A complete header of geometry g in a file of its size.
  predicate Complete(inode: Inode, g: Geometry) {
    inode.magic && inode.words == g.Words() && inode.size == g.FileSize()
  }

  // A creator died before publishing the magic.
  predicate Torn(inode: Inode) { inode.size < HEADER_BYTES || !inode.magic }

  /** A complete header is complete in one geometry only. */
  lemma CompleteInOne(inode: Inode, g: Geometry, h: Geometry)
    requires Complete(inode, g) && Complete(inode, h)
    ensures g == h
  {
    var a, b := g.Words(), h.Words();
    assert a[1] == b[1] && a[2] == b[2] && a[3] == b[3] && a[4] == b[4] && a[5] == b[5];
  }

  /** On a file system no opener has spoiled, torn is exactly unpublished, so a complete ring is not torn. */
  lemma TornIffUnpublished(v: FsView, i: Ino)
    requires v.Valid() && i in v.inodes
    ensures Torn(v.inodes[i]) <==> !v.inodes[i].magic
    ensures forall g :: Complete(v.inodes[i], g) ==> !Torn(v.inodes[i])
  {
  }

  datatype FsView = FsView(linked: Option<Ino>, inodes: map<Ino, Inode>, nextIno: Ino, reclaimed: set<Ino>) {
    predicate Valid() {
      && (linked.Some? ==> linked.value in inodes && linked.value !in reclaimed)
      && reclaimed <= inodes.Keys
      && (forall i :: i in inodes ==>
            i < nextIno && |inodes[i].words| == 6 && (inodes[i].magic ==> inodes[i].size >= HEADER_BYTES))
    }
  }

  // What any opener of geometry `expected` may do to the file system, however it ends.
  predicate Preserves(before: FsView, after: FsView, owned: bool, expected: Geometry) {
    && after.Valid()
    && before.nextIno <= after.nextIno && before.inodes.Keys <= after.inodes.Keys
    && (forall i :: i in before.inodes ==> after.inodes[i] == before.inodes[i])
    && (forall i :: i in after.inodes && i !in before.inodes && after.inodes[i].magic ==>
          Complete(after.inodes[i], expected))
    && before.reclaimed <= after.reclaimed
    && (forall i :: i in after.reclaimed && i !in before.reclaimed ==>
          !after.inodes[i].magic && (i in before.inodes ==> owned))
    && (after.linked.Some? && after.linked != before.linked ==> after.linked.value !in before.inodes)
  }

  class Fs {
    var linked: Option<Ino>           // the inode the ring path names
    var inodes: map<Ino, Inode>
    var nextIno: Ino
    ghost var reclaimed: set<Ino>     // inodes an opener has unlinked
    var script: seq<Outcome>          // what the coming calls will meet; Ok once exhausted

    ghost function View(): FsView
      reads this
    {
      FsView(linked, inodes, nextIno, reclaimed)
    }

    ghost predicate Valid()
      reads this
    {
      View().Valid()
    }

    // Nothing fails, dies or interferes from here on.
    ghost predicate Calm()
      reads this
    {
      forall i :: 0 <= i < |script| ==> script[i] == Ok
    }

    // The next call fails and nothing else does.
    ghost predicate FailsOnce()
      reads this
    {
      script != [] && script[0].Fail? && forall i :: 0 < i < |script| ==> script[i] == Ok
    }

    // The environment's move before one system call or header store.
    method Enter() returns (v: Verdict)
      requires Valid()
      modifies this`script, this`linked
      ensures Valid() && (linked == old(linked) || linked == None)
      ensures old(Calm()) ==> v == Proceed && Calm() && linked == old(linked)
      ensures old(FailsOnce()) ==> v == Error(old(script)[0].errno) && Calm() && linked == old(linked)
    {
      if script == [] { return Proceed; }
      var o := script[0];
      script := script[1..];
      match o
      case Ok => return Proceed;
      case Fail(e) => return Error(e);
      case Killed => return Dead;
      case OutsiderUnlink =>
        linked := None;
        return Proceed;
    }

    // open(O_CREAT | O_EXCL)
    method CreateExclusive() returns (v: Verdict, ino: Ino)
      requires Valid()
      modifies this`script, this`linked, this`inodes, this`nextIno
      ensures Valid()
      ensures v == Proceed ==>
                && old(nextIno) == ino && nextIno == ino + 1 && linked == Some(ino)
                && inodes == old(inodes)[ino := Blank]
      ensures v != Proceed ==>
                inodes == old(inodes) && nextIno == old(nextIno) && (linked == old(linked) || linked == None)
      ensures old(Calm()) ==> Calm() && (linked == old(linked) || v == Proceed)
                              && v == if old(linked) == None then Proceed else Error(EEXIST)
    {
      ino := nextIno;
      v := Enter();
      if v != Proceed { return; }
      if linked.Some? { return Error(EEXIST), ino; }
      inodes := inodes[ino := Blank];
      nextIno := ino + 1;
      linked := Some(ino);
    }

    // open(path) of an existing file
    method OpenExisting() returns (v: Verdict, ino: Ino)
      requires Valid()
      modifies this`script, this`linked
      ensures Valid() && (linked == old(linked) || linked == None)
      ensures v == Proceed ==> linked == Some(ino)
      ensures old(Calm()) ==> Calm() && linked == old(linked) && (linked.Some? ==> v == Proceed)
    {
      ino := 0;
      v := Enter();
      if v != Proceed { return; }
      if linked.None? { return Error(ENOENT), 0; }
      ino := linked.value;
    }

    // path_matches_fd: Proceed with whether the path still names this inode.
    method PathNames(ino: Ino) returns (v: Verdict, same: bool)
      requires Valid()
      modifies this`script, this`linked
      ensures Valid() && (linked == old(linked) || linked == None)
      ensures v == Proceed ==> same == (linked == Some(ino))
      ensures old(Calm()) ==> Calm() && linked == old(linked) && (linked.Some? ==> v == Proceed)
    {
      same := false;
      v := Enter();
      if v != Proceed { return; }
      v := Enter();
      if v != Proceed { return; }
      if linked.None? { return Error(ENOENT), false; }
      same := linked.value == ino;
    }

    method Unlink() returns (v: Verdict)
      requires Valid()
      modifies this`script, this`linked, this`reclaimed
      ensures Valid() && (linked == old(linked) || linked == None)
      ensures v == Proceed ==> linked == None && old(linked).Some? && reclaimed == old(reclaimed) + {old(linked).value}
      ensures v != Proceed ==> reclaimed == old(reclaimed)
      ensures old(Calm()) ==> Calm() && (v == Proceed <==> old(linked).Some?)
    {
      v := Enter();
      if v != Proceed { return; }
      if linked.None? { return Error(ENOENT); }
      reclaimed := reclaimed + {linked.value};
      linked := None;
    }

    // The config words, one store at a time; a store does not fail.
    method StoreWords(ino: Ino, words: seq<u32>) returns (v: Verdict)
      requires Valid() && ino in inodes && !inodes[ino].magic && |words| == 6
      modifies this`script, this`linked, this`inodes
      ensures Valid() && (linked == old(linked) || linked == None)
      ensures ino in inodes && inodes == old(inodes)[ino := inodes[ino]]
      ensures !inodes[ino].magic && inodes[ino].size == old(inodes)[ino].size
      ensures v == Dead || (v == Proceed && inodes[ino].words == words)
      ensures old(Calm()) ==> v == Proceed && Calm() && linked == old(linked)
    {
      var node := inodes[ino];
      for i := 0 to 6
        invariant Valid() && (linked == old(linked) || linked == None)
        invariant |node.words| == 6 && node == old(inodes)[ino].(words := node.words)
        invariant node.words[..i] == words[..i]
        invariant ino in inodes && inodes == old(inodes)[ino := node]
        invariant old(Calm()) ==> Calm() && linked == old(linked)
      {
        v := Enter();
        if v == Dead { return; }
        node := node.(words := node.words[i := words[i]]);
        inodes := inodes[ino := node];
      }
      assert node.words == node.words[..6] && words == words[..6];
      return Proceed;
    }

    // ftruncate and mmap of a new file.
    method SizeFile(ino: Ino, size: nat) returns (v: Verdict)
      requires Valid() && ino in inodes && inodes[ino] == Blank
      modifies this`script, this`linked, this`inodes
      ensures Valid() && (linked == old(linked) || linked == None)
      ensures ino in inodes && inodes == old(inodes)[ino := inodes[ino]]
      ensures !inodes[ino].magic && (v == Proceed ==> inodes[ino].size == size)
      ensures old(Calm()) ==> v == Proceed && Calm() && linked == old(linked)
      ensures old(FailsOnce()) ==> v == Error(old(script)[0].errno) && Calm() && linked == old(linked)
    {
      v := Enter();
      if v != Proceed { return; }
      inodes := inodes[ino := Inode(size, inodes[ino].words, false)];
      v := Enter();  // mmap
    }

    // The release store of the magic qword; a store does not fail.
    method StoreMagic(ino: Ino) returns (v: Verdict)
      requires Valid() && ino in inodes && inodes[ino].size >= HEADER_BYTES && !inodes[ino].magic
      modifies this`script, this`linked, this`inodes
      ensures Valid() && (linked == old(linked) || linked == None) && (v == Proceed || v == Dead)
      ensures ino in inodes
              && inodes == if v == Proceed then old(inodes)[ino := old(inodes)[ino].(magic := true)] else old(inodes)
      ensures old(Calm()) ==> v == Proceed && Calm() && linked == old(linked)
    {
      v := Enter();
      if v == Dead { return; }
      v := Proceed;
      inodes := inodes[ino := inodes[ino].(magic := true)];
    }

    // init_created_mapping: size the file, write the config words, publish the magic last.
    method InitCreated(ino: Ino, g: Geometry) returns (v: Verdict)
      requires Valid() && ino in inodes && inodes[ino] == Blank && g.FileSize() >= HEADER_BYTES
      modifies this`script, this`linked, this`inodes
      ensures Valid() && (linked == old(linked) || linked == None)
      ensures ino in inodes && inodes == old(inodes)[ino := inodes[ino]]
      ensures if v == Proceed then Complete(inodes[ino], g) else !inodes[ino].magic
      ensures old(Calm()) ==> v == Proceed && Calm() && linked == old(linked)
      ensures old(FailsOnce()) ==> v == Error(old(script)[0].errno) && Calm() && linked == old(linked)
    {
      hide Geometry.FileSize, Valid;
      v := SizeFile(ino, g.FileSize());
      if v != Proceed { return; }
      v := StoreWords(ino, g.Words());
      if v == Dead { return; }
      v := StoreMagic(ino);
    }
  }

  // ----- the opener -----------------------------------------------------------------------

  datatype Attach = Valid | TornFile | Fatal | AttachDead

  // attach_existing_mapping. No creator is alive under the open lock, so waiting for the size or the
  // magic ends as it began.
  method AttachExisting(fs: Fs, ino: Ino, expected: Geometry) returns (a: Attach)
    requires fs.Valid() && ino in fs.inodes
    modifies fs`script, fs`linked
    ensures fs.Valid() && (fs.linked == old(fs.linked) || fs.linked == None)
    ensures a == Valid ==> Complete(fs.inodes[ino], expected)
    ensures a == TornFile ==> Torn(fs.inodes[ino])
    ensures old(fs.Calm()) ==>
              && fs.Calm() && fs.linked == old(fs.linked)
              && a == if Torn(fs.inodes[ino]) then TornFile
                      else if Complete(fs.inodes[ino], expected) then Valid else Fatal
  {
    var v := fs.Enter();  // fstat in the size wait
    if v == Dead { return AttachDead; }
    if v.Error? { return Fatal; }
    var inode := fs.inodes[ino];
    if inode.size < HEADER_BYTES { return TornFile; }
    v := fs.Enter();  // mmap
    if v == Dead { return AttachDead; }
    if v.Error? { return Fatal; }
    if !inode.magic { return TornFile; }
    var w := inode.words;
    var header := Geometry(w[1], w[2], w[3], w[4], w[5]);
    if header.FileSize() != inode.size { return Fatal; }
    if w[0] != VERSION || header != expected { return Fatal; }
    assert w == expected.Words();
    return Valid;
  }

  datatype OpenResult = Opened(ino: Ino) | Failed(errno: Errno) | Died

  // What one pass of the attempt loop comes to.
  datatype Attempt = Finish(result: OpenResult) | Retry

  // Attempts compose.
  lemma PreservesTrans(v0: FsView, v1: FsView, v2: FsView, owned: bool, expected: Geometry)
    requires Preserves(v0, v1, owned, expected) && Preserves(v1, v2, owned, expected)
    ensures Preserves(v0, v2, owned, expected)
  {
  }

  // The file was just created by this opener: initialise it and check that it still owns the path.
  method FinishCreate(fs: Fs, ino: Ino, expected: Geometry) returns (t: Attempt)
    requires fs.Valid() && ino in fs.inodes && fs.inodes[ino] == Blank && ino !in fs.reclaimed
    requires expected.FileSize() >= HEADER_BYTES
    modifies fs
    ensures fs.Valid() && fs.nextIno == old(fs.nextIno)
    ensures ino in fs.inodes && fs.inodes == old(fs.inodes)[ino := fs.inodes[ino]]
    ensures fs.inodes[ino].magic ==> Complete(fs.inodes[ino], expected)
    ensures fs.linked == old(fs.linked) || fs.linked == None
    ensures fs.reclaimed == old(fs.reclaimed)
            || (fs.reclaimed == old(fs.reclaimed) + {ino} && !fs.inodes[ino].magic)
    ensures t.Finish? && t.result.Opened? ==>
              t.result.ino == ino && fs.linked == Some(ino) && Complete(fs.inodes[ino], expected)
    ensures old(fs.Calm()) && old(fs.linked) == Some(ino) ==> t == Finish(Opened(ino)) && fs.Calm()
    // a file that cannot be given its size is not left behind
    ensures old(fs.FailsOnce()) && old(fs.linked) == Some(ino) ==>
              t == Finish(Failed(old(fs.script)[0].errno)) && fs.linked == None && ino in fs.reclaimed
  {
    hide Geometry.FileSize;
    var v := fs.InitCreated(ino, expected);
    if v == Dead { return Finish(Died); }
    if v.Error? {
      var m, same := fs.PathNames(ino);
      if m == Dead { return Finish(Died); }
      if m == Proceed && same {
        var u := fs.Unlink();
        if u == Dead { return Finish(Died); }
      }
      return Finish(Failed(v.errno));
    }
    var m, same := fs.PathNames(ino);
    match m
    case Dead => return Finish(Died);
    case Error(e) => return if e == ENOENT then Retry else Finish(Failed(e));
    case Proceed => return if same then Finish(Opened(ino)) else Retry;
  }

  // What an undisturbed attach does with the file it finds: reclaim a torn one it owns, take the
  // expected ring, refuse anything else.
  predicate Attached(before: FsView, after: FsView, owned: bool, expected: Geometry, t: Attempt) {
    && before.Valid() && before.linked.Some?
    && var ino := before.linked.value;
       if Torn(before.inodes[ino]) && owned then
         t == Retry && after == before.(linked := None, reclaimed := before.reclaimed + {ino})
       else
         && after == before
         && t == Finish(if !Torn(before.inodes[ino]) && Complete(before.inodes[ino], expected)
                        then Opened(ino) else Failed(EINVAL))
  }

  method AttachAttempt(fs: Fs, owned: bool, expected: Geometry) returns (t: Attempt)
    requires fs.Valid()
    modifies fs
    ensures fs.inodes == old(fs.inodes) && fs.nextIno == old(fs.nextIno)
    ensures Preserves(old(fs.View()), fs.View(), owned, expected)
    ensures fs.linked == old(fs.linked) || fs.linked == None
    ensures t.Finish? && t.result.Opened? ==>
              fs.linked == Some(t.result.ino) && Complete(fs.inodes[t.result.ino], expected)
    ensures old(fs.Calm()) && old(fs.linked).Some? ==> fs.Calm() && Attached(old(fs.View()), fs.View(), owned, expected, t)
  {
    hide Geometry.FileSize, Complete;
    var v, ino := fs.OpenExisting();
    if v == Dead { return Finish(Died); }
    if v.Error? { return if v.errno == ENOENT then Retry else Finish(Failed(v.errno)); }
    v := fs.Enter();  // fstat of the opened inode
    if v == Dead { return Finish(Died); }
    if v.Error? { return Finish(Failed(v.errno)); }
    var a := AttachExisting(fs, ino, expected);
    if a == AttachDead { return Finish(Died); }
    if a == Valid {
      var m, same := fs.PathNames(ino);
      match m
      case Dead => return Finish(Died);
      case Error(e) => return if e == ENOENT then Retry else Finish(Failed(e));
      case Proceed => return if same then Finish(Opened(ino)) else Retry;
    }
    if a == Fatal || !owned { return Finish(Failed(EINVAL)); }
    // Torn, and ours to reclaim if the path still names what was classified.
    v := fs.Enter();  // stat(path)
    if v == Dead { return Finish(Died); }
    if v.Error? { return if v.errno == ENOENT then Retry else Finish(Failed(v.errno)); }
    if fs.linked.None? || fs.linked.value != ino { return Retry; }
    v := fs.Unlink();
    if v == Dead { return Finish(Died); }
    if v.Error? && v.errno != ENOENT { return Finish(Failed(v.errno)); }
    return Retry;
  }

  // One pass of the attempt loop: create exclusively, else attach, else reclaim.
  method Pass(fs: Fs, owned: bool, expected: Geometry) returns (t: Attempt)
    requires fs.Valid() && expected.FileSize() >= HEADER_BYTES
    modifies fs
    ensures Preserves(old(fs.View()), fs.View(), owned, expected)
    ensures t.Finish? && t.result.Opened? ==>
              fs.linked == Some(t.result.ino) && Complete(fs.inodes[t.result.ino], expected)
    ensures old(fs.Calm()) && old(fs.linked) == None ==> t == Finish(Opened(old(fs.nextIno)))
    ensures old(fs.Calm()) && old(fs.linked).Some? ==> fs.Calm() && Attached(old(fs.View()), fs.View(), owned, expected, t)
  {
    hide Geometry.FileSize, Complete;
    var c, ino := fs.CreateExclusive();
    if c == Dead { return Finish(Died); }
    if c == Proceed {
      t := FinishCreate(fs, ino, expected);
    } else if c.errno != EEXIST {
      return Finish(Failed(c.errno));
    } else {
      t := AttachAttempt(fs, owned, expected);
    }
  }

  /** One opener, from validation to the release of the open lock. However it ends, no inode that carried a magic is unlinked or
      altered, and nothing older than this opener is unlinked outside the owned directory. */
  method Open(fs: Fs, path: string, expected: Geometry) returns (result: OpenResult, attempts: nat)
    requires fs.Valid()
    modifies fs
    ensures Preserves(old(fs.View()), fs.View(), OwnedRingPath(path), expected)
    ensures !expected.Accepted() ==> result == Failed(EINVAL) && fs.View() == old(fs.View())
    ensures result.Opened? ==> fs.linked == Some(result.ino) && Complete(fs.inodes[result.ino], expected)
    // From any absent or torn leftover at an owned path, two attempts suffice.
    ensures old(fs.Calm()) && expected.Accepted() && old(fs.linked) == None ==>
              result == Opened(old(fs.nextIno)) && attempts == 1
    ensures old(fs.Calm()) && expected.Accepted() && OwnedRingPath(path) && old(fs.linked).Some?
            && Torn(old(fs.inodes)[old(fs.linked.value)]) ==>
              result == Opened(old(fs.nextIno)) && attempts == 2
    // A whole ring is attached to if and only if it is the expected one.
    ensures old(fs.Calm()) && expected.Accepted() && old(fs.linked).Some?
            && (!Torn(old(fs.inodes)[old(fs.linked.value)]) || !OwnedRingPath(path)) ==>
              && fs.View() == old(fs.View()) && attempts == 1
              && result == if Torn(fs.inodes[old(fs.linked.value)])
                              || !Complete(fs.inodes[old(fs.linked.value)], expected)
                           then Failed(EINVAL) else Opened(old(fs.linked.value))
  {
    hide Geometry.FileSize, Geometry.Accepted, Complete, OwnedRingPath;
    var owned := OwnedRingPath(path);
    attempts := 0;
    if !expected.Accepted() { return Failed(EINVAL), 0; }
    AcceptedSizeIsExact(expected);
    var v := fs.Enter();  // mkdir of the parent
    if v == Dead { return Died, 0; }
    if v.Error? { return Failed(v.errno), 0; }
    v := fs.Enter();  // the open lock, within its bounded wait
    if v == Dead { return Died, 0; }
    if v.Error? { return Failed(v.errno), 0; }

    while attempts < OPEN_MAX_ATTEMPTS
      invariant attempts <= OPEN_MAX_ATTEMPTS
      invariant Preserves(old(fs.View()), fs.View(), owned, expected)
      invariant old(fs.Calm()) ==> fs.Calm() && attempts <= 1
      invariant old(fs.Calm()) && attempts == 0 ==> fs.View() == old(fs.View())
      invariant old(fs.Calm()) && attempts == 1 ==>
                  && owned && old(fs.linked).Some? && Torn(old(fs.inodes)[old(fs.linked.value)])
                  && fs.linked == None && fs.nextIno == old(fs.nextIno)
    {
      ghost var before := fs.View();
      attempts := attempts + 1;
      var t := Pass(fs, owned, expected);
      PreservesTrans(old(fs.View()), before, fs.View(), owned, expected);
      if t.Finish? { return t.result, attempts; }
    }
    return Failed(EAGAIN), attempts;
  }

  // ----- any number of openers ------------------------------------------------------------

  datatype Opener = Opener(expected: Geometry, script: seq<Outcome>)

  // Every published ring on the file system is whole, in some geometry an opener asked for.
  ghost predicate Sound(v: FsView, wanted: set<Geometry>) {
    && v.Valid()
    && (forall i :: i in v.inodes && v.inodes[i].magic ==> exists g :: g in wanted && Complete(v.inodes[i], g))
    && (forall i :: i in v.reclaimed ==> !v.inodes[i].magic)
  }

  lemma SoundAfter(before: FsView, after: FsView, owned: bool, expected: Geometry, wanted: set<Geometry>)
    requires Sound(before, wanted) && Preserves(before, after, owned, expected)
    ensures Sound(after, wanted + {expected})
  {
    forall i | i in after.inodes && after.inodes[i].magic
      ensures exists g :: g in wanted + {expected} && Complete(after.inodes[i], g)
    {
      if i in before.inodes {
        var g :| g in wanted && Complete(before.inodes[i], g);
        assert g in wanted + {expected} && Complete(after.inodes[i], g);
      } else {
        assert expected in wanted + {expected} && Complete(after.inodes[i], expected);
      }
    }
  }

  /** Over any sequence of openers of one path, each meeting errors, deaths and outsiders as it may:
      published rings stay whole and are never unlinked by an opener, and every opener that reports
      success has the linked inode, complete in its own geometry. */
  method RunOpeners(fs: Fs, path: string, openers: seq<Opener>) returns (results: seq<OpenResult>)
    requires fs.Valid() && fs.linked == None && fs.inodes == map[] && fs.reclaimed == {}
    modifies fs
    ensures |results| == |openers|
    ensures Sound(fs.View(), set k | 0 <= k < |openers| :: openers[k].expected)
    ensures forall k :: 0 <= k < |openers| && results[k].Opened? ==>
              results[k].ino in fs.inodes && Complete(fs.inodes[results[k].ino], openers[k].expected)
  {
    results := [];
    for n := 0 to |openers|
      invariant |results| == n
      invariant Sound(fs.View(), set k | 0 <= k < n :: openers[k].expected)
      invariant forall k :: 0 <= k < n && results[k].Opened? ==>
                  results[k].ino in fs.inodes && Complete(fs.inodes[results[k].ino], openers[k].expected)
    {
      ghost var before := fs.View();
      fs.script := openers[n].script;
      var r, _ := Open(fs, path, openers[n].expected);
      SoundAfter(before, fs.View(), OwnedRingPath(path), openers[n].expected, set k | 0 <= k < n :: openers[k].expected);
      assert (set k | 0 <= k < n :: openers[k].expected) + {openers[n].expected}
          == set k | 0 <= k < n + 1 :: openers[k].expected;
      results := results + [r];
    }
  }
}
