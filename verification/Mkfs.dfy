/** mkfs.c and the reader in kernel/fs.c: the disk image.

    mkfs lays files out one after the other behind the metadata; readi finds them again.  The image
    is a flat file of bytes, which mkfs rewrites sector by sector. */
module Mkfs {
  import opened Types

  type Bytes = seq<Byte>

  const BSIZE := 512
  const FSSIZE := 100000
  const NBITMAP := FSSIZE / (BSIZE * 8) + 1
  const NMETA := 2 + NBITMAP
  const ISIZE := 64
  const IPB := BSIZE / ISIZE
  const DIRSIZ := 14
  const DESIZE := 16
  const T_DIR := 1
  const T_FILE := 2
  const T_DEV := 3
  const CONSOLE := 1

  // --------------------------------------------------------------- splicing bytes into the image

  function Splice(img: Bytes, at: nat, p: Bytes): (r: Bytes)
    requires at + |p| <= |img|
    ensures |r| == |img|
  {
    img[..at] + p + img[at + |p|..]
  }

  lemma SpliceAt(img: Bytes, at: nat, p: Bytes)
    requires at + |p| <= |img|
    ensures Splice(img, at, p)[at..at + |p|] == p
  {
  }

  lemma SpliceOff(img: Bytes, at: nat, p: Bytes, x: nat, y: nat)
    requires at + |p| <= |img| && x <= y <= |img| && (y <= at || at + |p| <= x)
    ensures Splice(img, at, p)[x..y] == img[x..y]
  {
  }

  lemma SpliceNone(img: Bytes, at: nat, p: Bytes)
    requires at <= |img| && p == []
    ensures Splice(img, at, p) == img
  {
  }

  lemma SpliceMore(img: Bytes, at: nat, p: Bytes, q: Bytes)
    requires at + |p| + |q| <= |img|
    ensures Splice(Splice(img, at, p), at + |p|, q) == Splice(img, at, p + q)
  {
  }

  lemma SpliceBack(img: Bytes, x: nat, y: nat)
    requires x <= y <= |img|
    ensures Splice(img, x, img[x..y]) == img
  {
  }

  /** Changing part of a sector in a buffer and writing the sector back. */
  lemma SpliceSector(img: Bytes, lo: nat, at: nat, p: Bytes)
    requires lo <= at && at + |p| <= lo + BSIZE <= |img|
    ensures Splice(img, lo, Splice(img[lo..lo + BSIZE], at - lo, p)) == Splice(img, at, p)
  {
  }

  // --------------------------------------------------------------- inodes on disk

  function Le16(x: int): (r: Bytes)
    ensures |r| == 2
  {
    [x % 256, x / 256 % 256]
  }

  function Le32(x: int): (r: Bytes)
    ensures |r| == 4
  {
    [x % 256, x / 0x100 % 256, x / 0x1_0000 % 256, x / 0x100_0000 % 256]
  }

  function Get16(b: Bytes): nat
    requires |b| == 2
  {
    b[0] as int + 0x100 * b[1] as int
  }

  function Get32(b: Bytes): nat
    requires |b| == 4
  {
    b[0] as int + 0x100 * b[1] as int + 0x1_0000 * b[2] as int + 0x100_0000 * b[3] as int
  }

  lemma Back16(x: nat)
    requires x < 0x1_0000
    ensures Get16(Le16(x)) == x
  {
  }

  lemma Back32(x: nat)
    requires x < 0x1_0000_0000
    ensures Get32(Le32(x)) == x
  {
    var a := x / 0x100;
    var b := a / 0x100;
    assert x / 0x1_0000 == b && x / 0x100_0000 == b / 0x100;
  }

  /** The first extent and, as bytes, the six that mkfs leaves alone. */
  datatype Dinode = Dinode(typ: nat, devid: nat, size: nat, start: nat, nblocks: nat, others: Bytes)

  predicate Storable(d: Dinode)
  {
    && d.typ < 0x1_0000 && d.devid < 0x1_0000 && d.size < 0x1_0000_0000 && d.start < 0x1_0000_0000
    && d.nblocks < 0x1_0000_0000 && |d.others| == 48
  }

  function Encode(d: Dinode): (r: Bytes)
    requires |d.others| == 48
    ensures |r| == ISIZE
  {
    Le16(d.typ) + Le16(d.devid) + Le32(d.size) + Le32(d.start) + Le32(d.nblocks) + d.others
  }

  function Decode(b: Bytes): (d: Dinode)
    requires |b| == ISIZE
    ensures |d.others| == 48
  {
    Dinode(Get16(b[..2]), Get16(b[2..4]), Get32(b[4..8]), Get32(b[8..12]), Get32(b[12..16]), b[16..])
  }

  lemma DecodeEncode(d: Dinode)
    requires Storable(d)
    ensures Decode(Encode(d)) == d
  {
    var b := Encode(d);
    Back16(d.typ);
    Back16(d.devid);
    Back32(d.size);
    Back32(d.start);
    Back32(d.nblocks);
    assert b[..2] == Le16(d.typ) && b[2..4] == Le16(d.devid) && b[4..8] == Le32(d.size);
    assert b[8..12] == Le32(d.start) && b[12..16] == Le32(d.nblocks) && b[16..] == d.others;
  }

  lemma Again16(b: Bytes)
    requires |b| == 2
    ensures Le16(Get16(b)) == b
  {
  }

  lemma Again32(b: Bytes)
    requires |b| == 4
    ensures Le32(Get32(b)) == b
  {
    var x := Get32(b);
    assert x / 0x100 == b[1] as int + 0x100 * b[2] as int + 0x1_0000 * b[3] as int;
    assert x / 0x1_0000 == b[2] as int + 0x100 * b[3] as int;
    assert x / 0x100_0000 == b[3] as int;
  }

  lemma EncodeDecode(b: Bytes)
    requires |b| == ISIZE
    ensures Encode(Decode(b)) == b
  {
    Again16(b[..2]);
    Again16(b[2..4]);
    Again32(b[4..8]);
    Again32(b[8..12]);
    Again32(b[12..16]);
    assert b == b[..2] + b[2..4] + b[4..8] + b[8..12] + b[12..16] + b[16..];
  }

  /** Where an inode lives: in the sector and slot winode computes, which is its place in the inode file. */
  function InodeOff(inum: nat): nat { NMETA * BSIZE + inum * ISIZE }

  lemma InodeSector(inum: nat)
    ensures (NMETA + inum * ISIZE / BSIZE) * BSIZE + (inum % IPB) * ISIZE == InodeOff(inum)
    ensures (inum % IPB) * ISIZE + ISIZE <= BSIZE
  {
  }

  function Inode(img: Bytes, inum: nat): (d: Dinode)
    requires InodeOff(inum) + ISIZE <= |img|
    ensures |d.others| == 48
  {
    Decode(img[InodeOff(inum)..InodeOff(inum) + ISIZE])
  }

  // --------------------------------------------------------------- the bitmap

  /** Bit k of a byte. */
  predicate BitOf(b: nat, k: nat) { if k == 0 then b % 2 == 1 else BitOf(b / 2, k - 1) }

  /** b | (1 << k) */
  function SetBit(b: nat, k: nat): nat
  {
    if k == 0 then b - b % 2 + 1 else b % 2 + 2 * SetBit(b / 2, k - 1)
  }

  /** A number with its c lowest bits set. */
  function Low(c: nat): nat { if c == 0 then 0 else 1 + 2 * Low(c - 1) }

  lemma {:induction false} LowBits(c: nat, k: nat)
    ensures BitOf(Low(c), k) <==> k < c
    ensures SetBit(Low(c), c) == Low(c + 1)
  {
    if c > 0 {
      assert Low(c) % 2 == 1 && Low(c) / 2 == Low(c - 1);
      LowBits(c - 1, if k > 0 then k - 1 else 0);
    } else if k > 0 {
      LowBits(0, k - 1);
    }
  }

  lemma LowFits(c: nat)
    requires c <= 8
    ensures Low(c) < 256
  {
    assert c == 0 || c == 1 || c == 2 || c == 3 || c == 4 || c == 5 || c == 6 || c == 7 || c == 8;
    assert Low(4) == 15 && Low(8) == 255;
  }

  function Clamp(m: int): (k: nat)
    ensures k <= 8
  {
    if m < 0 then 0 else if m > 8 then 8 else m
  }

  /** A byte with its m lowest bits set. */
  function Ones(m: int): Byte { LowFits(Clamp(m)); Low(Clamp(m)) }

  /** The first n bytes of the bitmap of a disk whose first `used` blocks are taken. */
  function Bitmap(used: int, n: nat): (r: Bytes)
    ensures |r| == n
  {
    seq(n, j requires 0 <= j < n => Ones(used - 8 * j))
  }

  predicate Bit(img: Bytes, b: nat)
    requires 2 * BSIZE + b / 8 < |img|
  {
    BitOf(img[2 * BSIZE + b / 8], b % 8)
  }

  // --------------------------------------------------------------- the builder's operations

  const IMAGE := FSSIZE * BSIZE

  function Zeroes(n: nat): (r: Bytes)
    ensures |r| == n
  {
    seq(n, _ => 0)
  }

  function Blank(typ: nat): Dinode { Dinode(typ, 0, 0, 0, 0, Zeroes(48)) }

  /** Blocks for n bytes. */
  function Blocks(n: nat): nat { n / BSIZE + if n % BSIZE == 0 then 0 else 1 }

  predicate HasInode(inum: nat) { NMETA + inum * ISIZE / BSIZE < FSSIZE }

  lemma InodeInside(inum: nat)
    requires HasInode(inum)
    ensures InodeOff(inum) + ISIZE <= IMAGE
  {
  }

  /** Appending to a file: the bytes behind its end, then the new size in its inode. */
  ghost function Appended(img: Bytes, inum: nat, p: Bytes): (r: Bytes)
    requires HasInode(inum) && |img| == IMAGE
    requires var d := (InodeInside(inum); Inode(img, inum)); d.start * BSIZE + d.size + |p| <= IMAGE
    ensures |r| == IMAGE
  {
    InodeInside(inum);
    var d := Inode(img, inum);
    Splice(Splice(img, d.start * BSIZE + d.size, p), InodeOff(inum), Encode(d.(size := d.size + |p|)))
  }

  lemma BitmapStep(m: nat, buf: Bytes)
    requires m < BSIZE * 8 && buf == Bitmap(m, BSIZE)
    ensures SetBit(buf[m / 8], m % 8) < 256 && buf[m / 8 := SetBit(buf[m / 8], m % 8)] == Bitmap(m + 1, BSIZE)
  {
    LowBits(m % 8, 0);
    var b := Bitmap(m + 1, BSIZE);
    forall j | 0 <= j < BSIZE && j != m / 8 ensures buf[j] == b[j] {
      assert Clamp(m - 8 * j) == Clamp(m + 1 - 8 * j);
    }
    assert m - 8 * (m / 8) == m % 8;
    LowFits(m % 8 + 1);
  }

  lemma BitmapMore(used: int, n: nat, k: nat)
    ensures Bitmap(used, n) + Bitmap(used - 8 * n, k) == Bitmap(used, n + k)
  {
  }

  lemma BitmapCut(used: int)
    ensures Bitmap(used, BSIZE) == Bitmap(if used < BSIZE * 8 then used else BSIZE * 8, BSIZE)
  {
  }

  lemma SpliceKeeps(img: Bytes, at: nat, p: Bytes)
    requires at + |p| <= |img|
    ensures forall a | 0 <= a < |img| && (a < at || at + |p| <= a) :: Splice(img, at, p)[a] == img[a]
  {
  }

  lemma SameSlice(img: Bytes, img': Bytes, x: nat, y: nat)
    requires |img| == |img'| && x <= y <= |img| && forall a | x <= a < y :: img'[a] == img[a]
    ensures img'[x..y] == img[x..y]
  {
  }

  lemma InodeWritten(img: Bytes, inum: nat, d: Dinode)
    requires |img| == IMAGE && InodeOff(inum) + ISIZE <= IMAGE && Storable(d)
    ensures Inode(Splice(img, InodeOff(inum), Encode(d)), inum) == d
  {
    hide Splice, Encode, Decode;
    SpliceAt(img, InodeOff(inum), Encode(d));
    DecodeEncode(d);
  }

  /** What an append leaves of the image, for a file that lies behind the inodes. */
  lemma AppendedFacts(img: Bytes, inum: nat, p: Bytes)
    requires |img| == IMAGE && HasInode(inum)
    requires var d := (InodeInside(inum); Inode(img, inum));
      && Storable(d) && InodeOff(inum) + ISIZE <= d.start * BSIZE && d.start * BSIZE + d.size + |p| <= IMAGE
    ensures var d, r := (InodeInside(inum); Inode(img, inum)), Appended(img, inum, p);
      && Inode(r, inum) == d.(size := d.size + |p|)
      && r[d.start * BSIZE..d.start * BSIZE + d.size + |p|] == img[d.start * BSIZE..d.start * BSIZE + d.size] + p
      && (forall a | 0 <= a < IMAGE && !(InodeOff(inum) <= a < InodeOff(inum) + ISIZE)
            && !(d.start * BSIZE + d.size <= a < d.start * BSIZE + d.size + |p|) :: r[a] == img[a])
  {
    hide Splice, Encode, Inode, InodeOff;
    InodeInside(inum);
    var d, r := Inode(img, inum), Appended(img, inum, p);
    var lo, at := d.start * BSIZE, d.start * BSIZE + d.size;
    var mid := Splice(img, at, p);
    var e := Encode(d.(size := d.size + |p|));
    InodeWritten(mid, inum, d.(size := d.size + |p|));
    SpliceKeeps(img, at, p);
    SpliceKeeps(mid, InodeOff(inum), e);
    SpliceOff(img, at, p, lo, at);
    SpliceAt(img, at, p);
    SpliceOff(mid, InodeOff(inum), e, lo, at + |p|);
    assert mid[lo..at + |p|] == mid[lo..at] + mid[at..at + |p|];
  }

  // --------------------------------------------------------------- the layout

  datatype File = File(name: Bytes, chunks: seq<Bytes>)

  function Concat(cs: seq<Bytes>): Bytes { if cs == [] then [] else Concat(cs[..|cs| - 1]) + cs[|cs| - 1] }

  function Content(f: File): Bytes { Concat(f.chunks) }

  function InodeBlocks(n: nat): nat { Blocks((n + 3) * ISIZE) }

  function RootStart(n: nat): nat { NMETA + InodeBlocks(n) }

  /** Where file k starts: behind the inode file, the root directory and the files before it. */
  function Start(files: seq<File>, k: nat): nat
    requires k <= |files|
  {
    if k == 0 then RootStart(|files|) + Blocks((|files| + 3) * DESIZE)
    else Start(files, k - 1) + Blocks(|Content(files[k - 1])|)
  }

  ghost predicate Fits(files: seq<File>) { Start(files, |files|) <= FSSIZE }

  /** A directory entry: the inode number and the name, cut or padded to its field. */
  function Entry(inum: nat, name: Bytes): (e: Bytes)
    ensures |e| == DESIZE
  {
    Le16(inum) + if |name| >= DIRSIZ then name[..DIRSIZ] else name + Zeroes(DIRSIZ - |name|)
  }

  const DOT: Bytes := [46]
  const DOTDOT: Bytes := [46, 46]
  const CONSOLE_NAME: Bytes := [99, 111, 110, 115, 111, 108, 101]

  /** Binaries are named with a leading underscore on the build machine. */
  function Shown(name: Bytes): Bytes { if name != [] && name[0] == 95 then name[1..] else name }

  function Entries(files: seq<File>, k: nat): (e: Bytes)
    requires k <= |files|
    ensures |e| == (k + 3) * DESIZE
  {
    if k == 0 then Entry(1, DOT) + Entry(1, DOTDOT) + Entry(2, CONSOLE_NAME)
    else Entries(files, k - 1) + Entry(k + 2, Shown(files[k - 1].name))
  }

  lemma {:induction false} StartGrows(files: seq<File>, j: nat, k: nat)
    requires j <= k <= |files|
    ensures Start(files, j) <= Start(files, k)
    ensures j < k ==> Start(files, j) + Blocks(|Content(files[j])|) <= Start(files, k)
    decreases k
  {
    if j < k { StartGrows(files, j, k - 1); }
  }

  /** Every inode the builder uses lies in the inode file, before the root directory. */
  lemma InodesFit(n: nat, inum: nat)
    requires inum < n + 3
    ensures InodeOff(inum) + ISIZE <= RootStart(n) * BSIZE
    ensures RootStart(n) <= FSSIZE ==> HasInode(inum) && InodeOff(inum) + ISIZE <= IMAGE
  {
  }

  lemma BlocksCover(n: nat)
    ensures n <= Blocks(n) * BSIZE < n + BSIZE
  {
  }

  // --------------------------------------------------------------- what a finished image holds

  ghost predicate RootAt(img: Bytes, files: seq<File>, k: nat)
    requires |img| == IMAGE && Fits(files) && k <= |files|
  {
    var n, r := |files|, RootStart(|files|);
    StartGrows(files, 0, n);
    BlocksCover((n + 3) * DESIZE);
    InodesFit(n, 1);
    && Inode(img, 1) == Dinode(T_DIR, 0, (k + 3) * DESIZE, r, Blocks((n + 3) * DESIZE), Zeroes(48))
    && img[r * BSIZE..r * BSIZE + (k + 3) * DESIZE] == Entries(files, k)
  }

  ghost predicate FileAt(img: Bytes, files: seq<File>, j: nat)
    requires |img| == IMAGE && Fits(files) && j < |files|
  {
    var n, c, at := |files|, Content(files[j]), Start(files, j);
    StartGrows(files, j, n);
    StartGrows(files, 0, n);
    BlocksCover(|c|);
    InodesFit(n, j + 3);
    && Inode(img, j + 3) == Dinode(T_FILE, 0, |c|, at, Blocks(|c|), Zeroes(48))
    && img[at * BSIZE..at * BSIZE + |c|] == c
  }

  ghost predicate MetaAt(img: Bytes, files: seq<File>)
    requires |img| == IMAGE && Fits(files)
  {
    var n := |files|;
    StartGrows(files, 0, n);
    InodesFit(n, 0);
    InodesFit(n, 2);
    && Inode(img, 0) == Dinode(T_FILE, 0, (n + 3) * ISIZE, NMETA, InodeBlocks(n), Zeroes(48))
    && Inode(img, 2) == Dinode(T_DEV, CONSOLE, 0, 0, 0, Zeroes(48))
    && img[BSIZE..BSIZE + 16] == Le32(FSSIZE) + Le32(FSSIZE - NMETA) + Le32(2) + Le32(NMETA)
  }

  /** No block is marked as used yet. */
  ghost predicate Unmarked(img: Bytes)
    requires |img| == IMAGE
  {
    forall a | 2 * BSIZE <= a < NMETA * BSIZE :: img[a] == 0
  }

  /** The image after k files, before the bitmap is written. */
  ghost predicate Built(img: Bytes, files: seq<File>, k: nat)
    requires |img| == IMAGE && Fits(files) && k <= |files|
  {
    && MetaAt(img, files) && RootAt(img, files, k) && (forall j | 0 <= j < k :: FileAt(img, files, j))
    && Unmarked(img)
  }

  ghost predicate InInode(inum: nat, a: nat) { InodeOff(inum) <= a < InodeOff(inum) + ISIZE }

  ghost predicate InEntry(files: seq<File>, k: nat, a: nat)
  {
    var at := RootStart(|files|) * BSIZE + (k + 3) * DESIZE;
    at <= a < at + DESIZE
  }

  /** The bytes that adding file k may change. */
  ghost predicate Touched(files: seq<File>, k: nat, a: nat)
    requires k < |files|
  {
    InInode(1, a) || InInode(k + 3, a) || InEntry(files, k, a) || Start(files, k) * BSIZE <= a
  }

  lemma BaseStart(files: seq<File>)
    ensures Start(files, 0) >= RootStart(|files|) >= NMETA
    ensures RootStart(|files|) * BSIZE + (|files| + 3) * DESIZE <= Start(files, 0) * BSIZE
  {
  }

  lemma SameInode(img: Bytes, img': Bytes, inum: nat)
    requires |img| == |img'| == IMAGE && InodeOff(inum) + ISIZE <= IMAGE
    requires forall a | InodeOff(inum) <= a < InodeOff(inum) + ISIZE :: img'[a] == img[a]
    ensures Inode(img', inum) == Inode(img, inum)
  {
    SameSlice(img, img', InodeOff(inum), InodeOff(inum) + ISIZE);
  }

  lemma FileSame(img: Bytes, img': Bytes, files: seq<File>, j: nat)
    requires |img| == |img'| == IMAGE && Fits(files) && j < |files| && FileAt(img, files, j)
    requires var at, n := Start(files, j) * BSIZE, |Content(files[j])|;
      forall a | 0 <= a < IMAGE && (InInode(j + 3, a) || at <= a < at + n) :: img'[a] == img[a]
    ensures FileAt(img', files, j)
  {
    hide Inode, Start, Content;
    var n, c, at := |files|, Content(files[j]), Start(files, j);
    StartGrows(files, j, n);
    StartGrows(files, 0, n);
    BaseStart(files);
    BlocksCover(|c|);
    InodesFit(n, j + 3);
    SameInode(img, img', j + 3);
    SameSlice(img, img', at * BSIZE, at * BSIZE + |c|);
  }

  lemma RootSame(img: Bytes, img': Bytes, files: seq<File>, k: nat)
    requires |img| == |img'| == IMAGE && Fits(files) && k <= |files| && RootAt(img, files, k)
    requires var r := RootStart(|files|) * BSIZE;
      forall a | 0 <= a < IMAGE && (InInode(1, a) || r <= a < r + (k + 3) * DESIZE) :: img'[a] == img[a]
    ensures RootAt(img', files, k)
  {
    hide Inode, Start, Content, Entries;
    var n, r := |files|, RootStart(|files|) * BSIZE;
    StartGrows(files, 0, n);
    BaseStart(files);
    InodesFit(n, 1);
    SameInode(img, img', 1);
    SameSlice(img, img', r, r + (k + 3) * DESIZE);
  }

  lemma MetaSame(img: Bytes, img': Bytes, files: seq<File>)
    requires |img| == |img'| == IMAGE && Fits(files) && MetaAt(img, files)
    requires forall a | 0 <= a < IMAGE && (InInode(0, a) || InInode(2, a) || BSIZE <= a < BSIZE + 16) ::
      img'[a] == img[a]
    ensures MetaAt(img', files)
  {
    hide Inode, Start, Content;
    var n := |files|;
    StartGrows(files, 0, n);
    BaseStart(files);
    InodesFit(n, 0);
    InodesFit(n, 2);
    SameInode(img, img', 0);
    SameInode(img, img', 2);
    SameSlice(img, img', BSIZE, BSIZE + 16);
  }

  /** The root directory has room for every entry, and the files start behind it. */
  lemma RootRoom(files: seq<File>, k: nat)
    requires k < |files|
    ensures RootStart(|files|) * BSIZE + (k + 4) * DESIZE <= Start(files, 0) * BSIZE <= Start(files, k) * BSIZE
  {
  }

  lemma FileKept(img: Bytes, img': Bytes, files: seq<File>, k: nat, j: nat)
    requires |img| == |img'| == IMAGE && Fits(files) && j < k < |files| && FileAt(img, files, j)
    requires forall a | 0 <= a < IMAGE && !Touched(files, k, a) :: img'[a] == img[a]
    ensures FileAt(img', files, j)
  {
    hide FileAt, Inode, Start, Content, Fits;
    StartGrows(files, j, k);
    StartGrows(files, 0, j);
    BlocksCover(|Content(files[j])|);
    RootRoom(files, k);
    InodesFit(|files|, j + 3);
    InodesFit(|files|, k + 3);
    FileSame(img, img', files, j);
  }

  lemma MetaKept(img: Bytes, img': Bytes, files: seq<File>, k: nat)
    requires |img| == |img'| == IMAGE && Fits(files) && k < |files| && MetaAt(img, files) && Unmarked(img)
    requires forall a | 0 <= a < IMAGE && !Touched(files, k, a) :: img'[a] == img[a]
    ensures MetaAt(img', files) && Unmarked(img')
  {
    hide MetaAt, Inode, Start, Content, Fits;
    RootRoom(files, k);
    InodesFit(|files|, 2);
    InodesFit(|files|, k + 3);
    MetaSame(img, img', files);
  }

  lemma BuiltStep(img: Bytes, img': Bytes, files: seq<File>, k: nat)
    requires |img| == |img'| == IMAGE && Fits(files) && k < |files| && Built(img, files, k)
    requires forall a | 0 <= a < IMAGE && !Touched(files, k, a) :: img'[a] == img[a]
    requires RootAt(img', files, k + 1) && FileAt(img', files, k)
    ensures Built(img', files, k + 1)
  {
    hide RootAt, FileAt, MetaAt, Unmarked, Fits, Touched;
    MetaKept(img, img', files, k);
    forall j | 0 <= j < k ensures FileAt(img', files, j) { FileKept(img, img', files, k, j); }
  }

  lemma ConcatGrows(chunks: seq<Bytes>, i: nat)
    requires i < |chunks|
    ensures Concat(chunks[..i + 1]) == Concat(chunks[..i]) + chunks[i] && |Concat(chunks[..i + 1])| <= |Concat(chunks)|
    decreases |chunks| - i
  {
    assert chunks[..i + 1][..i] == chunks[..i];
    if i + 1 < |chunks| {
      ConcatGrows(chunks, i + 1);
    } else {
      assert chunks[..i + 1] == chunks;
    }
  }

  /** Where everything about file k goes: inodes, then the root directory, then the files. */
  lemma Places(files: seq<File>, k: nat)
    requires Fits(files) && k < |files|
    ensures HasInode(1) && HasInode(k + 3) && InodeOff(1) + ISIZE <= InodeOff(k + 3)
    ensures InodeOff(k + 3) + ISIZE <= RootStart(|files|) * BSIZE
    ensures RootStart(|files|) * BSIZE + (k + 4) * DESIZE <= Start(files, k) * BSIZE
    ensures Start(files, k) * BSIZE + |Content(files[k])| <= IMAGE
    ensures Start(files, k + 1) == Start(files, k) + Blocks(|Content(files[k])|)
    ensures Blocks((|files| + 3) * DESIZE) < FSSIZE
  {
    StartGrows(files, 0, |files|);
    StartGrows(files, k, |files|);
    RootRoom(files, k);
    InodesFit(|files|, 1);
    InodesFit(|files|, k + 3);
    BlocksCover(|Content(files[k])|);
  }

  /** Writing to an inode or to the files leaves the root directory alone. */
  lemma RootKept(img: Bytes, img': Bytes, files: seq<File>, k: nat, m: nat)
    requires |img| == |img'| == IMAGE && Fits(files) && k < |files| && m <= k + 1 && RootAt(img, files, m)
    requires forall a | 0 <= a < IMAGE && a < Start(files, k) * BSIZE && !InInode(k + 3, a) :: img'[a] == img[a]
    ensures RootAt(img', files, m)
  {
    hide RootAt, Inode, Start, Content, Fits;
    Places(files, k);
    RootSame(img, img', files, m);
  }

  // --------------------------------------------------------------- the finished image

  /** The superblock, the inode file, the directory, every file and the bitmap are as the layout says. */
  ghost predicate Finished(img: Bytes, files: seq<File>)
  {
    && |img| == IMAGE && Fits(files)
    && MetaAt(img, files) && RootAt(img, files, |files|) && (forall j | 0 <= j < |files| :: FileAt(img, files, j))
    && forall b: nat | b < NBITMAP * BSIZE * 8 :: Bit(img, b) <==> b < Start(files, |files|)
  }

  lemma BitMarked(img: Bytes, img': Bytes, used: nat, n: nat, b: nat)
    requires |img| == |img'| == IMAGE && Unmarked(img) && n <= NBITMAP && used <= n * BSIZE * 8
    requires img' == Splice(img, 2 * BSIZE, Bitmap(used, n * BSIZE)) && b < NBITMAP * BSIZE * 8
    ensures Bit(img', b) <==> b < used
  {
    hide BitOf;
    var j := b / 8;
    if j < n * BSIZE {
      assert img'[2 * BSIZE + j] == Ones(used - 8 * j);
      LowBits(Clamp(used - 8 * j), b % 8);
    } else {
      assert img'[2 * BSIZE + j] == 0;
      assert Low(0) == 0;
      LowBits(0, b % 8);
    }
  }

  lemma MarkFinishes(img: Bytes, img': Bytes, files: seq<File>, n: nat)
    requires |img| == |img'| == IMAGE && Fits(files) && Built(img, files, |files|)
    requires n <= NBITMAP && Start(files, |files|) <= n * BSIZE * 8
    requires img' == Splice(img, 2 * BSIZE, Bitmap(Start(files, |files|), n * BSIZE))
    ensures Finished(img', files)
  {
    hide MetaAt, RootAt, FileAt, Start, Content, Fits, Splice, Bitmap, Unmarked, Bit;
    SpliceKeeps(img, 2 * BSIZE, Bitmap(Start(files, |files|), n * BSIZE));
    MetaSame(img, img', files);
    RootSame(img, img', files, |files|);
    forall j | 0 <= j < |files| ensures FileAt(img', files, j) {
      StartGrows(files, 0, j);
      BaseStart(files);
      FileSame(img, img', files, j);
    }
    forall b: nat | b < NBITMAP * BSIZE * 8 ensures Bit(img', b) <==> b < Start(files, |files|) {
      BitMarked(img, img', Start(files, |files|), n, b);
    }
  }

  /** The extent of a file: between the metadata and the end of the disk, where the layout put it. */
  lemma ExtentOf(img: Bytes, files: seq<File>, j: nat)
    requires Finished(img, files) && j < |files|
    ensures HasInode(j + 3) && InodeOff(j + 3) + ISIZE <= IMAGE
    ensures var d := Inode(img, j + 3);
      && d.start == Start(files, j) >= NMETA + InodeBlocks(|files|) && d.nblocks == Blocks(|Content(files[j])|)
      && d.start + d.nblocks <= Start(files, |files|) && d.typ == T_FILE && d.size == |Content(files[j])|
      && d.size <= d.nblocks * BSIZE
      && d.start * BSIZE + d.size <= IMAGE && img[d.start * BSIZE..d.start * BSIZE + d.size] == Content(files[j])
  {
    hide MetaAt, RootAt, Bit, Start, Inode, Content;
    assert FileAt(img, files, j);
    StartGrows(files, 0, j);
    StartGrows(files, j, |files|);
    BaseStart(files);
    BlocksCover(|Content(files[j])|);
    InodesFit(|files|, j + 3);
  }

  /** The blocks of the files, and none behind the last, are marked. */
  lemma ExtentMarked(img: Bytes, files: seq<File>, j: nat, b: nat)
    requires Finished(img, files) && j < |files| && Start(files, j) <= b < Start(files, j) + Blocks(|Content(files[j])|)
    ensures 2 * BSIZE + b / 8 < |img| && Bit(img, b)
  {
    hide MetaAt, RootAt, FileAt, Bit, Start, Content;
    StartGrows(files, j, |files|);
  }

  /** The extents of the finished image are pairwise disjoint and clear of the metadata. */
  lemma ExtentsApart(img: Bytes, files: seq<File>, j: nat, k: nat)
    requires Finished(img, files) && j < k < |files|
    ensures InodeOff(j + 3) + ISIZE <= IMAGE == |img| && InodeOff(k + 3) + ISIZE <= IMAGE
    ensures var d, e := Inode(img, j + 3), Inode(img, k + 3);
      NMETA + InodeBlocks(|files|) <= d.start && d.start + d.nblocks <= e.start && e.start + e.nblocks <= FSSIZE
  {
    hide MetaAt, RootAt, FileAt, Bit, Start, Inode, Content;
    ExtentOf(img, files, j);
    ExtentOf(img, files, k);
    StartGrows(files, j, k);
  }

  lemma BaseOf(files: seq<File>)
    ensures Start(files, 0) == RootStart(|files|) + Blocks((|files| + 3) * DESIZE)
  {
  }

  lemma FirstRoot(img: Bytes, files: seq<File>)
    requires |img| == IMAGE && Fits(files) && InodeOff(1) + ISIZE <= IMAGE && RootStart(|files|) * BSIZE + 48 <= IMAGE
    requires var n := |files|;
      && Inode(img, 1) == Dinode(T_DIR, 0, 48, RootStart(n), Blocks((n + 3) * DESIZE), Zeroes(48))
      && img[RootStart(n) * BSIZE..RootStart(n) * BSIZE + 48] ==
         Entry(1, DOT) + Entry(1, DOTDOT) + Entry(2, CONSOLE_NAME)
    ensures RootAt(img, files, 0)
  {
  }

  lemma FirstMeta(img0: Bytes, img: Bytes, files: seq<File>)
    requires |img0| == |img| == IMAGE && Fits(files) && InodeOff(2) + ISIZE <= IMAGE
    requires var n := |files|;
      && Inode(img0, 0) == Dinode(T_FILE, 0, (n + 3) * ISIZE, NMETA, InodeBlocks(n), Zeroes(48))
      && img0[BSIZE..BSIZE + 16] == Le32(FSSIZE) + Le32(FSSIZE - NMETA) + Le32(2) + Le32(NMETA)
      && Unmarked(img0) && Inode(img, 2) == Dinode(T_DEV, CONSOLE, 0, 0, 0, Zeroes(48))
      && (forall a | 0 <= a < IMAGE && a < RootStart(n) * BSIZE && !InInode(1, a) && !InInode(2, a) ::
        img[a] == img0[a])
    ensures MetaAt(img, files) && Unmarked(img)
  {
    hide Inode, Content, Start, Le32;
    StartGrows(files, 0, |files|);
    BaseStart(files);
    InodesFit(|files|, 0);
    InodesFit(|files|, 2);
    SameInode(img0, img, 0);
    SameSlice(img0, img, BSIZE, BSIZE + 16);
  }

  class Image {
    var img: Bytes
    var freeinode: nat
    var freeblock: nat

    constructor ()
      ensures img == Zeroes(IMAGE) && freeinode == 0 && freeblock == NMETA
    {
      img := Zeroes(IMAGE);
      freeinode, freeblock := 0, NMETA;
    }

    method Wsect(sec: nat, buf: Bytes)
      requires |img| == IMAGE && sec < FSSIZE && |buf| == BSIZE
      modifies `img
      ensures img == Splice(old(img), sec * BSIZE, buf)
    {
      img := img[..sec * BSIZE] + buf + img[sec * BSIZE + BSIZE..];
    }

    method Rsect(sec: nat) returns (buf: Bytes)
      requires |img| == IMAGE && sec < FSSIZE
      ensures buf == img[sec * BSIZE..sec * BSIZE + BSIZE]
    {
      buf := img[sec * BSIZE..(sec + 1) * BSIZE];
    }

    /** Rewrites one inode of its sector and nothing else. */
    method Winode(inum: nat, d: Dinode)
      requires |img| == IMAGE && HasInode(inum) && |d.others| == 48
      modifies `img
      ensures InodeOff(inum) + ISIZE <= IMAGE && img == Splice(old(img), InodeOff(inum), Encode(d))
    {
      hide Splice, Encode, InodeOff;
      InodeInside(inum);
      InodeSector(inum);
      var bn := NMETA + inum * ISIZE / BSIZE;
      var buf := Rsect(bn);
      var slot := (inum % IPB) * ISIZE;
      SpliceSector(img, bn * BSIZE, InodeOff(inum), Encode(d));
      Wsect(bn, Splice(buf, slot, Encode(d)));
    }

    method Rinode(inum: nat) returns (d: Dinode)
      requires |img| == IMAGE && HasInode(inum)
      ensures InodeOff(inum) + ISIZE <= IMAGE && d == Inode(img, inum)
    {
      InodeInside(inum);
      InodeSector(inum);
      var bn := NMETA + inum * ISIZE / BSIZE;
      var buf := Rsect(bn);
      var slot := (inum % IPB) * ISIZE;
      assert buf[slot..slot + ISIZE] == img[InodeOff(inum)..InodeOff(inum) + ISIZE];
      d := Decode(buf[slot..slot + ISIZE]);
    }

    method Ialloc(typ: nat) returns (inum: nat)
      requires |img| == IMAGE && HasInode(freeinode)
      modifies `img, `freeinode
      ensures inum == old(freeinode) && freeinode == inum + 1
      ensures InodeOff(inum) + ISIZE <= IMAGE && img == Splice(old(img), InodeOff(inum), Encode(Blank(typ)))
    {
      inum := freeinode;
      freeinode := freeinode + 1;
      Winode(inum, Blank(typ));
    }

    /** Writes p behind the file's end, block by block. */
    method Iappend(inum: nat, p: Bytes)
      requires |img| == IMAGE && HasInode(inum)
      requires var d := (InodeInside(inum); Inode(img, inum)); d.start * BSIZE + d.size + |p| <= IMAGE
      modifies `img
      ensures img == Appended(old(img), inum, p)
    {
      hide Splice, Encode, InodeOff, Inode;
      var din := Rinode(inum);
      var off, done := din.size, 0;
      ghost var at := din.start * BSIZE + din.size;
      SpliceNone(img, at, p[..0]);
      while done < |p|
        invariant 0 <= done <= |p| && off == din.size + done
        invariant img == Splice(old(img), at, p[..done])
      {
        var fbn := off / BSIZE;
        var n1 := if |p| - done < (fbn + 1) * BSIZE - off then |p| - done else (fbn + 1) * BSIZE - off;
        var q := p[done..done + n1];
        var buf := Rsect(din.start + fbn);
        SpliceSector(img, (din.start + fbn) * BSIZE, at + done, q);
        SpliceMore(old(img), at, p[..done], q);
        assert p[..done] + q == p[..done + n1];
        var k := off - fbn * BSIZE;
        Wsect(din.start + fbn, Splice(buf, k, q));
        done, off := done + n1, off + n1;
      }
      assert p[..|p|] == p;
      Winode(inum, din.(size := off));
    }

    method BitmapSector(m: nat) returns (buf: Bytes)
      requires m <= BSIZE * 8
      ensures buf == Bitmap(m, BSIZE)
    {
      buf := Zeroes(BSIZE);
      assert buf == Bitmap(0, BSIZE);
      for i := 0 to m
        invariant buf == Bitmap(i, BSIZE)
      {
        BitmapStep(i, buf);
        buf := buf[i / 8 := SetBit(buf[i / 8], i % 8)];
      }
    }

    /** Marks the first `used` blocks, a sector of the bitmap at a time. */
    method Balloc(used: nat) returns (ghost n: nat)
      requires |img| == IMAGE && used <= FSSIZE
      modifies `img
      ensures n <= NBITMAP && used <= n * BSIZE * 8 && img == Splice(old(img), 2 * BSIZE, Bitmap(used, n * BSIZE))
    {
      hide Splice, Bitmap;
      var nbuf, remaining: int := 0, used;
      SpliceNone(img, 2 * BSIZE, Bitmap(used, 0));
      while remaining > 0
        invariant 0 <= nbuf <= NBITMAP && remaining == used - nbuf * BSIZE * 8
        invariant img == Splice(old(img), 2 * BSIZE, Bitmap(used, nbuf * BSIZE))
        decreases remaining
      {
        var buf := BitmapSector(if remaining < BSIZE * 8 then remaining else BSIZE * 8);
        BitmapCut(remaining);
        BitmapMore(used, nbuf * BSIZE, BSIZE);
        SpliceMore(old(img), 2 * BSIZE, Bitmap(used, nbuf * BSIZE), buf);
        Wsect(2 + nbuf, buf);
        nbuf := nbuf + 1;
        remaining := remaining - BSIZE * 8;
      }
      n := nbuf;
    }

    /** Copies a file into the image as it is read, piece by piece. */
    method CopyIn(inum: nat, chunks: seq<Bytes>)
      requires |img| == IMAGE && HasInode(inum)
      requires var d := (InodeInside(inum); Inode(img, inum));
        && Storable(d) && d.size == 0 && InodeOff(inum) + ISIZE <= d.start * BSIZE
        && d.start * BSIZE + |Concat(chunks)| <= IMAGE
      modifies `img
      ensures |img| == IMAGE && InodeOff(inum) + ISIZE <= IMAGE
      ensures var d := old(Inode(img, inum)); var c := Concat(chunks);
        && Inode(img, inum) == d.(size := |c|) && img[d.start * BSIZE..d.start * BSIZE + |c|] == c
        && (forall a | 0 <= a < d.start * BSIZE && !(InodeOff(inum) <= a < InodeOff(inum) + ISIZE) ::
          img[a] == old(img)[a])
    {
      hide Inode, Appended, InodeOff;
      InodeInside(inum);
      ghost var d, lo := Inode(img, inum), Inode(img, inum).start * BSIZE;
      var i := 0;
      while i < |chunks|
        invariant 0 <= i <= |chunks| && |img| == IMAGE
        invariant var c := Concat(chunks[..i]);
          lo + |c| <= IMAGE && Inode(img, inum) == d.(size := |c|) && img[lo..lo + |c|] == c
        invariant forall a | 0 <= a < lo && !(InodeOff(inum) <= a < InodeOff(inum) + ISIZE) :: img[a] == old(img)[a]
      {
        ConcatGrows(chunks, i);
        AppendedFacts(img, inum, chunks[i]);
        Iappend(inum, chunks[i]);
        i := i + 1;
      }
      assert chunks[..|chunks|] == chunks;
    }

    /** The directory entry of file k. */
    method AddEntry(ghost files: seq<File>, ghost k: nat, inum: nat, name: Bytes)
      requires |img| == IMAGE && Fits(files) && k < |files| && inum == k + 3
      requires name == files[k].name && RootAt(img, files, k)
      modifies `img
      ensures |img| == IMAGE && RootAt(img, files, k + 1)
      ensures forall a | 0 <= a < IMAGE && !InInode(1, a) && !InEntry(files, k, a) :: img[a] == old(img)[a]
    {
      hide Inode, Appended, InodeOff, Start, Content, Fits, Entry;
      Places(files, k);
      AppendedFacts(img, 1, Entry(inum, Shown(name)));
      Iappend(1, Entry(inum, Shown(name)));
      assert Entries(files, k + 1) == Entries(files, k) + Entry(inum, Shown(name));
    }

    /** The bytes of file k, from the first free block on, and its extent. */
    method StoreFile(ghost files: seq<File>, ghost k: nat, inum: nat, file: File)
      requires |img| == IMAGE && Fits(files) && k < |files| && files[k] == file
      requires inum == k + 3 && freeblock == Start(files, k)
      requires InodeOff(inum) + ISIZE <= IMAGE && Inode(img, inum) == Blank(T_FILE)
      modifies `img, `freeblock
      ensures |img| == IMAGE && FileAt(img, files, k) && freeblock == Start(files, k + 1)
      ensures forall a | 0 <= a < IMAGE && a < Start(files, k) * BSIZE && !InInode(inum, a) :: img[a] == old(img)[a]
    {
      hide Inode, Appended, InodeOff, Start, Fits, Splice, Encode, Concat;
      Places(files, k);
      var din := Rinode(inum);
      din := din.(start := freeblock);
      SpliceKeeps(img, InodeOff(inum), Encode(din));
      InodeWritten(img, inum, din);
      Winode(inum, din);
      CopyIn(inum, file.chunks);
      din := Rinode(inum);
      din := din.(nblocks := din.size / BSIZE + (if din.size % BSIZE == 0 then 0 else 1));
      freeblock := freeblock + din.nblocks;
      SpliceKeeps(img, InodeOff(inum), Encode(din));
      InodeWritten(img, inum, din);
      SpliceOff(img, InodeOff(inum), Encode(din), din.start * BSIZE, din.start * BSIZE + din.size);
      Winode(inum, din);
    }

    /** Adds file k: an inode, a directory entry, and the file's bytes. */
    method AddFile(ghost files: seq<File>, ghost k: nat, file: File)
      requires |img| == IMAGE && Fits(files) && k < |files| && files[k] == file
      requires Built(img, files, k) && freeinode == k + 3 && freeblock == Start(files, k)
      modifies this
      ensures |img| == IMAGE && Built(img, files, k + 1) && freeinode == k + 4 && freeblock == Start(files, k + 1)
    {
      hide Inode, Splice, Appended, Encode, Start, Content, Concat, InodeOff, MetaAt, Unmarked, RootAt, FileAt, Fits;
      Places(files, k);
      var inum := Ialloc(T_FILE);
      SpliceKeeps(old(img), InodeOff(inum), Encode(Blank(T_FILE)));
      InodeWritten(old(img), inum, Blank(T_FILE));
      RootKept(old(img), img, files, k, k);
      ghost var img1 := img;
      AddEntry(files, k, inum, file.name);
      SameInode(img1, img, inum);
      ghost var img2 := img;
      StoreFile(files, k, inum, file);
      RootKept(img2, img, files, k, k + 1);
      forall a | 0 <= a < IMAGE && !Touched(files, k, a) ensures img[a] == old(img)[a] {
        assert img[a] == img2[a] == img1[a];
      }
      BuiltStep(old(img), img, files, k);
    }

    /** The superblock and the inode of the inode file. */
    method Begin(n: nat)
      requires img == Zeroes(IMAGE) && freeinode == 0 && freeblock == NMETA && RootStart(n) <= FSSIZE
      modifies this
      ensures |img| == IMAGE && freeinode == 1 && freeblock == RootStart(n) && InodeOff(0) + ISIZE <= IMAGE
      ensures Inode(img, 0) == Dinode(T_FILE, 0, (n + 3) * ISIZE, NMETA, InodeBlocks(n), Zeroes(48))
      ensures img[BSIZE..BSIZE + 16] == Le32(FSSIZE) + Le32(FSSIZE - NMETA) + Le32(2) + Le32(NMETA)
      ensures Unmarked(img)
    {
      hide Inode, Splice, Encode, Le32;
      InodesFit(n, 0);
      BlocksCover((n + 3) * ISIZE);
      var sb := Le32(FSSIZE) + Le32(FSSIZE - NMETA) + Le32(2) + Le32(NMETA);
      var buf := sb + Zeroes(BSIZE - 16);
      SpliceKeeps(img, BSIZE, buf);
      SpliceAt(img, BSIZE, buf);
      Wsect(1, buf);
      assert img[BSIZE..BSIZE + 16] == img[BSIZE..BSIZE + BSIZE][..16] == sb;
      ghost var img0 := img;
      var inum := Ialloc(T_FILE);
      SpliceKeeps(img0, InodeOff(0), Encode(Blank(T_FILE)));
      InodeWritten(img0, 0, Blank(T_FILE));
      var din := Rinode(inum);
      var blocks := (n + 3) / IPB;
      if blocks == 0 || (n + 3) * ISIZE % BSIZE != 0 { blocks := blocks + 1; }
      assert blocks == InodeBlocks(n);
      din := din.(start := NMETA, nblocks := blocks, size := (n + 3) * ISIZE);
      SpliceKeeps(img, InodeOff(0), Encode(din));
      InodeWritten(img, 0, din);
      Winode(inum, din);
      freeblock := freeblock + blocks;
      SameSlice(img0, img, BSIZE, BSIZE + 16);
    }

    /** The inode of the root directory, with room for all entries. */
    method RootInode(n: nat)
      requires |img| == IMAGE && freeinode == 1 && freeblock == RootStart(n) <= FSSIZE
      requires Blocks((n + 3) * DESIZE) < FSSIZE
      modifies this
      ensures |img| == IMAGE && freeinode == 2 && freeblock == RootStart(n) + Blocks((n + 3) * DESIZE)
      ensures InodeOff(1) + ISIZE <= IMAGE
      ensures Inode(img, 1) == Dinode(T_DIR, 0, 0, RootStart(n), Blocks((n + 3) * DESIZE), Zeroes(48))
      ensures forall a | 0 <= a < IMAGE && !InInode(1, a) :: img[a] == old(img)[a]
    {
      hide Inode, Splice, Encode, InodeOff;
      InodesFit(n, 1);
      var root := Ialloc(T_DIR);
      SpliceKeeps(old(img), InodeOff(1), Encode(Blank(T_DIR)));
      InodeWritten(old(img), 1, Blank(T_DIR));
      var size := (n + 3) * DESIZE;
      var blocks := size / BSIZE;
      if size % BSIZE != 0 { blocks := blocks + 1; }
      var din := Rinode(root);
      din := din.(start := freeblock, nblocks := blocks);
      SpliceKeeps(img, InodeOff(1), Encode(din));
      InodeWritten(img, 1, din);
      Winode(root, din);
      freeblock := freeblock + blocks;
    }

    /** The root directory with its entries for itself. */
    method RootDir(n: nat)
      requires |img| == IMAGE && freeinode == 1 && freeblock == RootStart(n)
      requires RootStart(n) + Blocks((n + 3) * DESIZE) <= FSSIZE
      modifies this
      ensures |img| == IMAGE && freeinode == 2 && freeblock == RootStart(n) + Blocks((n + 3) * DESIZE)
      ensures InodeOff(1) + ISIZE <= IMAGE && RootStart(n) * BSIZE + 32 <= IMAGE
      ensures Inode(img, 1) == Dinode(T_DIR, 0, 32, RootStart(n), Blocks((n + 3) * DESIZE), Zeroes(48))
      ensures img[RootStart(n) * BSIZE..RootStart(n) * BSIZE + 32] == Entry(1, DOT) + Entry(1, DOTDOT)
      ensures forall a | 0 <= a < RootStart(n) * BSIZE && !InInode(1, a) :: img[a] == old(img)[a]
    {
      hide Inode, Appended, Entry, InodeOff, RootStart, Blocks, Zeroes;
      InodesFit(n, 1);
      BlocksCover((n + 3) * DESIZE);
      RootInode(n);
      assert img[RootStart(n) * BSIZE..RootStart(n) * BSIZE] == [];
      AppendedFacts(img, 1, Entry(1, DOT));
      Iappend(1, Entry(1, DOT));
      AppendedFacts(img, 1, Entry(1, DOTDOT));
      Iappend(1, Entry(1, DOTDOT));
    }

    /** The console, a device with an entry of its own. */
    method ConsoleDev(n: nat)
      requires |img| == IMAGE && freeinode == 2 && InodeOff(1) + ISIZE <= IMAGE
      requires RootStart(n) + Blocks((n + 3) * DESIZE) <= FSSIZE
      requires Inode(img, 1) == Dinode(T_DIR, 0, 32, RootStart(n), Blocks((n + 3) * DESIZE), Zeroes(48))
      modifies `img, `freeinode
      ensures |img| == IMAGE && freeinode == 3 && InodeOff(2) + ISIZE <= IMAGE && RootStart(n) * BSIZE + 48 <= IMAGE
      ensures Inode(img, 1) == Dinode(T_DIR, 0, 48, RootStart(n), Blocks((n + 3) * DESIZE), Zeroes(48))
      ensures Inode(img, 2) == Dinode(T_DEV, CONSOLE, 0, 0, 0, Zeroes(48))
      ensures img[RootStart(n) * BSIZE..RootStart(n) * BSIZE + 48] ==
              old(img[RootStart(n) * BSIZE..RootStart(n) * BSIZE + 32]) + Entry(2, CONSOLE_NAME)
      ensures forall a | 0 <= a < RootStart(n) * BSIZE && !InInode(1, a) && !InInode(2, a) :: img[a] == old(img)[a]
    {
      hide Inode, Splice, Encode, Appended, Entry;
      InodesFit(n, 1);
      InodesFit(n, 2);
      BlocksCover((n + 3) * DESIZE);
      var inum := Ialloc(T_DEV);
      SpliceKeeps(old(img), InodeOff(2), Encode(Blank(T_DEV)));
      InodeWritten(old(img), 2, Blank(T_DEV));
      var din := Rinode(inum);
      din := din.(devid := CONSOLE);
      SpliceKeeps(img, InodeOff(2), Encode(din));
      InodeWritten(img, 2, din);
      Winode(inum, din);
      SameInode(old(img), img, 1);
      SameSlice(old(img), img, RootStart(n) * BSIZE, RootStart(n) * BSIZE + 32);
      ghost var img1 := img;
      AppendedFacts(img, 1, Entry(inum, CONSOLE_NAME));
      Iappend(1, Entry(inum, CONSOLE_NAME));
      SameInode(img1, img, 2);
    }

    /** The whole of mkfs: metadata, directory, every file in turn, and the bitmap. */
    method Build(files: seq<File>)
      requires img == Zeroes(IMAGE) && freeinode == 0 && freeblock == NMETA && Fits(files)
      modifies this
      ensures Finished(img, files)
    {
      hide Inode, Splice, Encode, Appended, Content, Concat, Unmarked, MetaAt, RootAt, FileAt, Start, Finished, Entry,
        InodeOff;
      var n := |files|;
      StartGrows(files, 0, n);
      BaseOf(files);
      Begin(n);
      ghost var img0 := img;
      RootDir(n);
      ghost var img1 := img;
      ConsoleDev(n);
      forall a | 0 <= a < IMAGE && a < RootStart(n) * BSIZE && !InInode(1, a) && !InInode(2, a)
        ensures img[a] == img0[a]
      {
        assert img[a] == img1[a];
      }
      FirstMeta(img0, img, files);
      FirstRoot(img, files);
      var k := 0;
      while k < n
        invariant 0 <= k <= n && |img| == IMAGE && Built(img, files, k)
        invariant freeinode == k + 3 && freeblock == Start(files, k)
      {
        AddFile(files, k, files[k]);
        k := k + 1;
      }
      FixRoot(files, n);
      ghost var img2 := img;
      ghost var m := Balloc(freeblock);
      MarkFinishes(img2, img, files, m);
    }

    /** The root directory's size is set once more at the end. */
    method FixRoot(ghost files: seq<File>, n: nat)
      requires |img| == IMAGE && Fits(files) && n == |files| && Built(img, files, n)
      modifies `img
      ensures img == old(img)
    {
      hide Splice, Encode, Decode, Content, Concat, MetaAt, FileAt, Start, Entries, InodeOff;
      StartGrows(files, 0, |files|);
      BaseStart(files);
      InodesFit(|files|, 1);
      var din := Rinode(1);
      EncodeDecode(img[InodeOff(1)..InodeOff(1) + ISIZE]);
      SpliceBack(img, InodeOff(1), InodeOff(1) + ISIZE);
      Winode(1, din.(size := (n + 3) * DESIZE));
    }
  }

  // --------------------------------------------------------------- reading it back

  const UINT := 0x1_0000_0000

  lemma SlicesJoin(img: Bytes, x: nat, y: nat, z: nat)
    requires x <= y <= z <= |img|
    ensures img[x..y] + img[y..z] == img[x..z]
  {
  }

  /** The block holding byte `size` of an extent. */
  lemma BlockOf(start: nat, nblocks: nat, size: nat)
    requires size < nblocks * BSIZE
    ensures var block, k := start + size / BSIZE, size % BSIZE;
      k < BSIZE && block * BSIZE + k == start * BSIZE + size && block * BSIZE + BSIZE <= (start + nblocks) * BSIZE
  {
  }

  lemma SliceOfSlice(img: Bytes, at: nat, size: nat, off: nat, n: nat)
    requires at + size <= |img| && off + n <= size
    ensures img[at..at + size][off..off + n] == img[at + off..at + off + n]
  {
    var a, b := img[at..at + size][off..off + n], img[at + off..at + off + n];
    forall i | 0 <= i < n ensures a[i] == b[i] {
      assert a[i] == img[at..at + size][off + i];
    }
  }

  lemma FinishedSize(img: Bytes, files: seq<File>)
    requires Finished(img, files)
    ensures |img| == IMAGE && Start(files, |files|) <= FSSIZE
  {
    hide MetaAt, RootAt, FileAt, Bit, Start;
  }

  /** -1, the bytes, or a walk off the end of the inode's list of extents. */
  datatype ReadResult = Refused | Got(data: Bytes) | Astray

  /** readi on a file with one extent: block by block, from the block holding `off` on.  It does not stop
      at the file's size, only at the end of the extent, and there it looks for the next extent. */
  method Readi(img: Bytes, d: Dinode, off: nat, n: nat) returns (r: ReadResult)
    requires |img| == IMAGE && (d.start + d.nblocks) * BSIZE <= IMAGE
    requires d.size <= d.nblocks * BSIZE && off < UINT && n < UINT
    ensures r.Refused? <==> off > d.size || (off + n) % UINT < off
    ensures r.Astray? <==> !r.Refused? && off + n > d.nblocks * BSIZE
    ensures r.Got? ==> r.data == img[d.start * BSIZE + off..d.start * BSIZE + off + n]
  {
    if off > d.size || (off + n) % UINT < off { return Refused; }
    var dst: Bytes := [];
    var tot, size := 0, off;
    while tot < n
      invariant 0 <= tot <= n && size == off + tot <= d.nblocks * BSIZE
      invariant dst == img[d.start * BSIZE + off..d.start * BSIZE + off + tot]
    {
      if size >= d.nblocks * BSIZE { return Astray; }
      BlockOf(d.start, d.nblocks, size);
      var block, k := d.start + size / BSIZE, size % BSIZE;
      var data := img[block * BSIZE..block * BSIZE + BSIZE];
      var m := if n - tot < BSIZE - k then n - tot else BSIZE - k;
      ghost var at := d.start * BSIZE;
      SliceOfSlice(img, block * BSIZE, BSIZE, k, m);
      SlicesJoin(img, at + off, at + size, at + size + m);
      dst := dst + data[k..k + m];
      tot, size := tot + m, size + m;
    }
    return Got(dst);
  }

  /** Building an image and reading any part of any file from it gives that part of the file. */
  method RoundTrip(files: seq<File>, k: nat, off: nat, n: nat) returns (r: ReadResult)
    requires Fits(files) && k < |files| && off + n <= |Content(files[k])|
    ensures r == Got(Content(files[k])[off..off + n])
  {
    hide Finished, Start, Content, Fits, Inode, InodeOff, Blocks, InodeBlocks, HasInode;
    var image := new Image();
    image.Build(files);
    ExtentOf(image.img, files, k);
    FinishedSize(image.img, files);
    var d := image.Rinode(k + 3);
    r := Readi(image.img, d, off, n);
    SliceOfSlice(image.img, d.start * BSIZE, d.size, off, n);
  }
}
