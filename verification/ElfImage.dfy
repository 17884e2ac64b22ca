/** Rendering ELF images, and the round trip through the build-id reader. */
module ElfImage {
  import opened Text
  import opened BuildId

  // ----- hex has a left inverse -----

  function Nibble(c: char): nat {
    if '0' <= c <= '9' then (c - '0') as nat else if 'a' <= c <= 'f' then 10 + (c - 'a') as nat else 0
  }

  /** Two digits to a byte. */
  function Unhex(s: string): seq<int> {
    seq(|s| / 2, i requires 0 <= i < |s| / 2 => 16 * Nibble(s[2 * i]) + Nibble(s[2 * i + 1]))
  }

  lemma DigitsOfByte(b: Byte)
    ensures 16 * Nibble(HexDigit(b / 16)) + Nibble(HexDigit(b % 16)) == b
  {
    NibbleOfDigit(b / 16);
    NibbleOfDigit(b % 16);
  }

  lemma NibbleOfDigit(d: nat)
    requires d < 16
    ensures Nibble(HexDigit(d)) == d
  {
  }

  lemma {:induction false} HexLength(bytes: Bytes)
    ensures |Hex(bytes)| == 2 * |bytes|
  {
    if bytes != [] {
      HexLength(bytes[..|bytes| - 1]);
    }
  }

  lemma {:induction false} HexAt(bytes: Bytes, i: nat)
    requires i < |bytes|
    ensures |Hex(bytes)| == 2 * |bytes|
    ensures Hex(bytes)[2 * i] == HexDigit(bytes[i] / 16) && Hex(bytes)[2 * i + 1] == HexDigit(bytes[i] % 16)
    decreases |bytes|
  {
    var n := |bytes| - 1;
    HexLength(bytes[..n]);
    if i < n {
      HexAt(bytes[..n], i);
    }
  }

  lemma UnhexHex(bytes: Bytes)
    ensures Unhex(Hex(bytes)) == bytes
  {
    HexLength(bytes);
    var back := Unhex(Hex(bytes));
    assert |back| == |bytes|;
    forall i | 0 <= i < |bytes|
      ensures back[i] == bytes[i]
    {
      HexAt(bytes, i);
      DigitsOfByte(bytes[i]);
    }
  }

  lemma HexInjective(a: Bytes, b: Bytes)
    requires Hex(a) == Hex(b)
    ensures a == b
  {
    UnhexHex(a);
    UnhexHex(b);
  }

  // ----- integers -----

  function Pow256(n: nat): nat {
    if n == 0 then 1 else 256 * Pow256(n - 1)
  }

  function ToLe(v: nat, n: nat): (s: Bytes)
    ensures |s| == n
  {
    if n == 0 then [] else [v % 256] + ToLe(v / 256, n - 1)
  }

  function ToBe(v: nat, n: nat): (s: Bytes)
    ensures |s| == n
  {
    if n == 0 then [] else ToBe(v / 256, n - 1) + [v % 256]
  }

  /** `to_le_bytes` or `to_be_bytes` of an `n`-byte integer. */
  function Write(v: nat, n: nat, le: bool): (s: Bytes)
    ensures |s| == n
  {
    if le then ToLe(v, n) else ToBe(v, n)
  }

  lemma {:induction false} FromToLe(v: nat, n: nat)
    requires v < Pow256(n)
    ensures FromLe(ToLe(v, n)) == v
  {
    if n > 0 {
      FromToLe(v / 256, n - 1);
      assert ToLe(v, n)[1..] == ToLe(v / 256, n - 1);
    }
  }

  lemma {:induction false} FromToBe(v: nat, n: nat)
    requires v < Pow256(n)
    ensures FromBe(ToBe(v, n)) == v
  {
    if n > 0 {
      FromToBe(v / 256, n - 1);
      assert ToBe(v, n)[..n - 1] == ToBe(v / 256, n - 1);
    }
  }

  /** `part` sits in `b` at `o`. */
  predicate Sits(b: Bytes, o: nat, part: Bytes) {
    o + |part| <= |b| && b[o..o + |part|] == part
  }

  lemma ReadWritten(b: Bytes, o: nat, v: nat, n: nat, le: bool)
    requires Sits(b, o, Write(v, n, le)) && v < Pow256(n)
    ensures Read(b, o, n, le) == Some(v)
  {
    FromToLe(v, n);
    FromToBe(v, n);
  }

  /** What sits in a part sits in the whole. */
  lemma SitsInPart(b: Bytes, o: nat, x: Bytes, y: Bytes, z: Bytes)
    requires Sits(b, o, x + y + z)
    ensures Sits(b, o + |x|, y)
  {
    var all := x + y + z;
    var slice, inner := b[o..o + |all|], b[o + |x|..o + |x| + |y|];
    forall i | 0 <= i < |y|
      ensures inner[i] == y[i]
    {
      assert inner[i] == b[o + |x| + i] == slice[|x| + i] == all[|x| + i];
    }
  }

  lemma SitsSplit(b: Bytes, o: nat, x: Bytes, y: Bytes)
    requires Sits(b, o, x + y)
    ensures Sits(b, o, x) && Sits(b, o + |x|, y)
  {
    assert [] + x + y == x + y == x + y + [];
    SitsInPart(b, o, [], x, y);
    SitsInPart(b, o, x, y, []);
  }

  lemma Pow256Values()
    ensures Pow256(2) == 0x1_0000 && Pow256(4) == 0x1_0000_0000 && Pow256(8) == 0x1_0000_0000_0000_0000
  {
    assert Pow256(3) == 0x100_0000;
    assert Pow256(5) == 0x100_0000_0000;
    assert Pow256(6) == 0x1_0000_0000_0000;
    assert Pow256(7) == 0x100_0000_0000_0000;
  }

  // ----- notes -----

  datatype Note = Note(name: Bytes, desc: Bytes, ntype: nat)

  ghost predicate NoteFits(n: Note) {
    |n.name| < 0x1_0000_0000 && |n.desc| < 0x1_0000_0000 && n.ntype < 0x1_0000_0000
  }

  predicate IsBuildIdNote(n: Note) {
    n.ntype == NT_GNU_BUILD_ID && IsGnu(n.name)
  }

  function Zeros(n: nat): Bytes {
    seq(n, _ => 0)
  }

  function Padded(s: Bytes): (r: Bytes)
    ensures |r| == RoundUp4(|s|)
  {
    s + Zeros(RoundUp4(|s|) - |s|)
  }

  function NoteHeader(n: Note, le: bool): (s: Bytes)
    ensures |s| == 12
  {
    Write(|n.name|, 4, le) + Write(|n.desc|, 4, le) + Write(n.ntype, 4, le)
  }

  function RenderNote(n: Note, le: bool): (s: Bytes)
    ensures |s| == 12 + RoundUp4(|n.name|) + RoundUp4(|n.desc|)
  {
    NoteHeader(n, le) + Padded(n.name) + Padded(n.desc)
  }

  function RenderNotes(notes: seq<Note>, le: bool): Bytes {
    if notes == [] then [] else RenderNotes(notes[..|notes| - 1], le) + RenderNote(notes[|notes| - 1], le)
  }

  lemma HeaderRead(b: Bytes, pos: nat, n: Note, le: bool)
    requires Sits(b, pos, NoteHeader(n, le)) && NoteFits(n)
    ensures Read(b, pos, 4, le) == Some(|n.name|)
    ensures Read(b, pos + 4, 4, le) == Some(|n.desc|)
    ensures Read(b, pos + 8, 4, le) == Some(n.ntype)
  {
    Pow256Values();
    var x, y, z := Write(|n.name|, 4, le), Write(|n.desc|, 4, le), Write(n.ntype, 4, le);
    assert [] + x + (y + z) == x + y + z;
    SitsInPart(b, pos, [], x, y + z);
    SitsInPart(b, pos, x, y, z);
    assert (x + y) + z + [] == x + y + z;
    SitsInPart(b, pos, x + y, z, []);
    ReadWritten(b, pos, |n.name|, 4, le);
    ReadWritten(b, pos + 4, |n.desc|, 4, le);
    ReadWritten(b, pos + 8, n.ntype, 4, le);
  }

  /** Three parts in a row, each at its own offset. */
  lemma SitsInThree(b: Bytes, o: nat, x: Bytes, y: Bytes, z: Bytes)
    requires Sits(b, o, x + y + z)
    ensures Sits(b, o, x) && Sits(b, o + |x|, y) && Sits(b, o + |x| + |y|, z)
  {
    SitsSplit(b, o, x + y, z);
    SitsSplit(b, o, x, y);
  }

  lemma PaddedSits(b: Bytes, o: nat, part: Bytes)
    requires Sits(b, o, Padded(part))
    ensures Sits(b, o, part)
  {
    SitsSplit(b, o, part, Zeros(RoundUp4(|part|) - |part|));
  }

  /** The parts of a rendered note sit where the reader looks for them. */
  lemma NoteSits(b: Bytes, pos: nat, n: Note, le: bool)
    requires Sits(b, pos, RenderNote(n, le))
    ensures Sits(b, pos, NoteHeader(n, le)) && Sits(b, pos + 12, n.name)
    ensures Sits(b, pos + 12 + RoundUp4(|n.name|), n.desc)
  {
    SitsInThree(b, pos, NoteHeader(n, le), Padded(n.name), Padded(n.desc));
    PaddedSits(b, pos + 12, n.name);
    PaddedSits(b, pos + 12 + RoundUp4(|n.name|), n.desc);
  }

  lemma NoteRead(b: Bytes, pos: nat, n: Note, le: bool)
    requires Sits(b, pos, RenderNote(n, le)) && NoteFits(n)
    ensures var start := pos + 12 + RoundUp4(|n.name|);
            && ReadNote(b, pos, le) == Some(NoteView(start, start + |n.desc|, pos + |RenderNote(n, le)|,
                                                     IsBuildIdNote(n)))
            && b[start..start + |n.desc|] == n.desc
  {
    NoteSits(b, pos, n, le);
    HeaderRead(b, pos, n, le);
  }

  lemma ScanPasses(b: Bytes, pos: nat, n: Note, next: nat, le: bool)
    requires Sits(b, pos, RenderNote(n, le)) && NoteFits(n) && !IsBuildIdNote(n) && next == pos + |RenderNote(n, le)|
    ensures ScanFrom(b, pos, le) == ScanFrom(b, next, le)
  {
    NoteRead(b, pos, n, le);
  }

  lemma ScanFinds(b: Bytes, pos: nat, id: Note, le: bool)
    requires Sits(b, pos, RenderNote(id, le)) && NoteFits(id) && IsBuildIdNote(id)
    ensures ScanFrom(b, pos, le) == Some(Hex(id.desc))
  {
    NoteRead(b, pos, id, le);
  }

  ghost predicate AllOthers(notes: seq<Note>) {
    forall i :: 0 <= i < |notes| ==> NoteFits(notes[i]) && !IsBuildIdNote(notes[i])
  }

  /** The scan passes over any number of notes that are not build-ids. */
  lemma {:induction false} ScanPassesAll(b: Bytes, pos: nat, before: seq<Note>, end: nat, le: bool)
    requires Sits(b, pos, RenderNotes(before, le)) && AllOthers(before) && end == pos + |RenderNotes(before, le)|
    ensures ScanFrom(b, pos, le) == ScanFrom(b, end, le)
    decreases |before|
  {
    if before != [] {
      var n := |before| - 1;
      var init, last := before[..n], before[n];
      var mid := pos + |RenderNotes(init, le)|;
      SitsSplit(b, pos, RenderNotes(init, le), RenderNote(last, le));
      ScanPassesAll(b, pos, init, mid, le);
      ScanPasses(b, mid, last, end, le);
    }
  }

  /** The scan stops at the build-id, whatever other notes precede it and whatever follows. */
  lemma NotesScan(notes: Bytes, before: seq<Note>, id: Note, rest: Bytes, le: bool)
    requires notes == RenderNotes(before, le) + (RenderNote(id, le) + rest)
    requires NoteFits(id) && IsBuildIdNote(id) && AllOthers(before)
    ensures ScanFrom(notes, 0, le) == Some(Hex(id.desc))
  {
    var head, last := RenderNotes(before, le), RenderNote(id, le);
    SitsAtStart(notes);
    SitsSplit(notes, 0, head, last + rest);
    SitsSplit(notes, |head|, last, rest);
    ScanPassesAll(notes, 0, before, |head|, le);
    ScanFinds(notes, |head|, id, le);
  }

  lemma SitsAtStart(b: Bytes)
    ensures Sits(b, 0, b)
  {
    assert b[0..|b|] == b;
  }

  /** A note of type 3 whose name begins with GNU is a build-id, whatever follows the name; no other note is. */
  lemma GnuNotesOnly(name: Bytes, desc: Bytes, ntype: nat, rest: Bytes, le: bool)
    requires NoteFits(Note(name, desc, ntype)) && |rest| < 12
    ensures ScanFrom(RenderNote(Note(name, desc, ntype), le) + rest, 0, le)
         == if ntype == 3 && |name| >= 3 && name[0] == 'G' as int && name[1] == 'N' as int && name[2] == 'U' as int
            then Some(Hex(desc)) else None
  {
    var n := Note(name, desc, ntype);
    var b := RenderNote(n, le) + rest;
    GnuIff(name);
    SitsAtStart(b);
    SitsSplit(b, 0, RenderNote(n, le), rest);
    if IsBuildIdNote(n) {
      ScanFinds(b, 0, n, le);
    } else {
      ScanPasses(b, 0, n, |RenderNote(n, le)|, le);
    }
  }

  lemma GnuIff(name: Bytes)
    ensures IsGnu(name) <==> |name| >= 3 && name[0] == 'G' as int && name[1] == 'N' as int && name[2] == 'U' as int
  {
    if |name| >= 3 {
      assert name[..3] == [name[0], name[1], name[2]];
    }
  }

  // ----- whole images -----

  /**
   A program header before the build-id's: one of another kind, or one of a note segment without a
   build-id, with the notes in it. `rest` is what is left of the segment after its last note, too
   short for another. Bytes the reader has no use for are arbitrary: `d`, `e`, `f` in the header and
   `gap` before the segment.
   */
  datatype Other =
    | OtherHeader(bytes: Bytes)
    | OtherNotes(d: Bytes, e: Bytes, f: Bytes, gap: Bytes, notes: seq<Note>, rest: Bytes)

  /**
   An image of either class and byte order. Bytes the reader has no use for are arbitrary: `a`, `b`,
   `c` in the file header, `d`, `e`, `f` in the note's program header, `gap` before the note segments,
   `rest` after the build-id in its segment and `trailing` after it. `others` are the program headers
   before the note's, and `later` is how many more the file claims to have.
   */
  datatype Image = Image(
    is64: bool, le: bool, a: Bytes, b: Bytes, c: Bytes,
    others: seq<Other>, d: Bytes, e: Bytes, f: Bytes, later: nat, gap: Bytes,
    before: seq<Note>, id: Note, rest: Bytes, trailing: Bytes)

  function HeaderSize(im: Image): nat { if im.is64 then 64 else 52 }

  function EntrySize(im: Image): nat { if im.is64 then 56 else 32 }

  /** The width of a file offset. */
  function Wide(im: Image): nat { if im.is64 then 8 else 4 }

  function Headers(im: Image): nat { |im.others| + 1 + im.later }

  function Segment(im: Image): Bytes {
    RenderNotes(im.before, im.le) + (RenderNote(im.id, im.le) + im.rest)
  }

  function Table(entries: seq<Bytes>): Bytes {
    if entries == [] then [] else Table(entries[..|entries| - 1]) + entries[|entries| - 1]
  }

  /** The note segment of an earlier header, and the bytes before it. */
  function OtherSegment(o: Other, le: bool): Bytes
    requires o.OtherNotes?
  {
    RenderNotes(o.notes, le) + o.rest
  }

  function Blob(o: Other, le: bool): Bytes {
    if o.OtherNotes? then o.gap + OtherSegment(o, le) else []
  }

  function BlobList(others: seq<Other>, le: bool): seq<Bytes> {
    seq(|others|, k requires 0 <= k < |others| => Blob(others[k], le))
  }

  function Blobs(others: seq<Other>, le: bool): Bytes {
    Table(BlobList(others, le))
  }

  /** Where the note's own program header is. */
  function NoteEntryAt(im: Image): nat {
    HeaderSize(im) + |im.others| * EntrySize(im)
  }

  /** Where the segments begin. */
  function BlobsAt(im: Image): nat {
    NoteEntryAt(im) + EntrySize(im) + |im.gap|
  }

  function NoteOffset(im: Image): nat {
    BlobsAt(im) + |Blobs(im.others, im.le)|
  }

  /** Where the segment of an earlier note header is. */
  function OtherOffset(im: Image, k: nat): nat
    requires k < |im.others| && im.others[k].OtherNotes?
  {
    BlobsAt(im) + |Blobs(im.others[..k], im.le)| + |im.others[k].gap|
  }

  function Ident(im: Image): Bytes {
    [0x7F, 'E' as int, 'L' as int, 'F' as int, if im.is64 then 2 else 1, if im.le then 1 else 2]
  }

  function FileHeader(im: Image): Bytes {
    (Ident(im) + im.a) + (Write(HeaderSize(im), Wide(im), im.le)
    + (im.b + (Write(EntrySize(im), 2, im.le) + (Write(Headers(im), 2, im.le) + im.c))))
  }

  /** A program header of a note segment. */
  function NoteHeaderFor(im: Image, d: Bytes, e: Bytes, f: Bytes, start: nat, length: nat): Bytes {
    var kind, offset, size := Write(PT_NOTE, 4, im.le), Write(start, Wide(im), im.le), Write(length, Wide(im), im.le);
    if im.is64 then kind + (d + (offset + (e + (size + f))))
    else kind + (offset + (d + (size + e)))
  }

  function NoteEntry(im: Image): Bytes {
    NoteHeaderFor(im, im.d, im.e, im.f, NoteOffset(im), |Segment(im)|)
  }

  function OtherEntry(im: Image, k: nat): Bytes
    requires k < |im.others|
  {
    match im.others[k]
    case OtherHeader(bytes) => bytes
    case OtherNotes(d, e, f, _, _, _) =>
      NoteHeaderFor(im, d, e, f, OtherOffset(im, k), |OtherSegment(im.others[k], im.le)|)
  }

  function OtherEntries(im: Image): seq<Bytes> {
    seq(|im.others|, k requires 0 <= k < |im.others| => OtherEntry(im, k))
  }

  function Render(im: Image): Bytes {
    FileHeader(im) + (Table(OtherEntries(im)) + (NoteEntry(im)
    + (im.gap + (Blobs(im.others, im.le) + (Segment(im) + im.trailing)))))
  }

  /** The unused bytes of a note segment's header fill it up. */
  ghost predicate UnusedOk(im: Image, d: Bytes, e: Bytes, f: Bytes) {
    if im.is64 then |d| == 4 && |e| == 16 && |f| == 16 else |d| == 8 && |e| == 12
  }

  ghost predicate OtherOk(im: Image, k: nat)
    requires k < |im.others|
  {
    match im.others[k]
    case OtherHeader(bytes) => |bytes| == EntrySize(im) && Read(bytes, 0, 4, im.le) != Some(PT_NOTE)
    case OtherNotes(d, e, f, _, notes, rest) =>
      && UnusedOk(im, d, e, f) && AllOthers(notes) && |rest| < 12
      && OtherOffset(im, k) < Pow256(Wide(im)) && |OtherSegment(im.others[k], im.le)| < Pow256(Wide(im))
  }

  ghost predicate ImageOk(im: Image) {
    && (if im.is64 then |im.a| == 26 && |im.b| == 14 else |im.a| == 22 && |im.b| == 10)
    && |im.c| == 6 && UnusedOk(im, im.d, im.e, im.f)
    && Headers(im) < Pow256(2) && NoteOffset(im) < Pow256(Wide(im)) && |Segment(im)| < Pow256(Wide(im))
    && (forall k :: 0 <= k < |im.others| ==> OtherOk(im, k))
    && AllOthers(im.before) && NoteFits(im.id) && IsBuildIdNote(im.id)
  }

  function LayoutOf(im: Image): Layout {
    Layout(im.is64, im.le, HeaderSize(im), EntrySize(im), Headers(im))
  }

  /** The parts of an image that the reader visits. */
  lemma PartsSit(im: Image)
    requires ImageOk(im)
    ensures |FileHeader(im)| == HeaderSize(im) && |NoteEntry(im)| == EntrySize(im)
    ensures var elf := Render(im);
            && Sits(elf, 0, FileHeader(im)) && Sits(elf, HeaderSize(im), Table(OtherEntries(im)))
            && Sits(elf, NoteEntryAt(im), NoteEntry(im)) && Sits(elf, BlobsAt(im), Blobs(im.others, im.le))
            && Sits(elf, NoteOffset(im), Segment(im))
  {
    HeaderFull(im);
    NoteHeaderSize(im, im.d, im.e, im.f, NoteOffset(im), |Segment(im)|);
    EntriesFull(im);
    SixPartsSit(FileHeader(im), Table(OtherEntries(im)), NoteEntry(im), im.gap, Blobs(im.others, im.le), Segment(im),
                im.trailing, HeaderSize(im), NoteEntryAt(im), BlobsAt(im), NoteOffset(im));
  }

  lemma HeaderFull(im: Image)
    requires ImageOk(im)
    ensures |FileHeader(im)| == HeaderSize(im)
  {
  }

  lemma NoteHeaderSize(im: Image, d: Bytes, e: Bytes, f: Bytes, start: nat, length: nat)
    requires UnusedOk(im, d, e, f)
    ensures |NoteHeaderFor(im, d, e, f, start, length)| == EntrySize(im)
  {
  }

  lemma OtherEntrySize(im: Image, k: nat)
    requires k < |im.others| && OtherOk(im, k)
    ensures |OtherEntry(im, k)| == EntrySize(im)
  {
    match im.others[k]
    case OtherHeader(_) =>
    case OtherNotes(d, e, f, _, _, _) =>
      NoteHeaderSize(im, d, e, f, OtherOffset(im, k), |OtherSegment(im.others[k], im.le)|);
  }

  lemma EntriesFull(im: Image)
    requires ImageOk(im)
    ensures forall k :: 0 <= k < |im.others| ==> |OtherEntries(im)[k]| == EntrySize(im)
    ensures |Table(OtherEntries(im))| == |im.others| * EntrySize(im)
  {
    forall k | 0 <= k < |im.others|
      ensures |OtherEntries(im)[k]| == EntrySize(im)
    {
      OtherEntrySize(im, k);
    }
    TableSize(OtherEntries(im), EntrySize(im));
  }

  lemma SixPartsSit(a: Bytes, b: Bytes, c: Bytes, d: Bytes, e: Bytes, f: Bytes, g: Bytes,
                    bAt: nat, cAt: nat, eAt: nat, fAt: nat)
    requires bAt == |a| && cAt == bAt + |b| && eAt == cAt + |c| + |d| && fAt == eAt + |e|
    ensures var all := a + (b + (c + (d + (e + (f + g)))));
            Sits(all, 0, a) && Sits(all, bAt, b) && Sits(all, cAt, c) && Sits(all, eAt, e) && Sits(all, fAt, f)
  {
    var tail := d + (e + (f + g));
    var all := a + (b + (c + tail));
    SitsAtStart(all);
    SitsSplit(all, 0, a, b + (c + tail));
    SitsSplit(all, bAt, b, c + tail);
    SitsSplit(all, cAt, c, tail);
    SitsSplit(all, cAt + |c|, d, e + (f + g));
    SitsSplit(all, eAt, e, f + g);
    SitsSplit(all, fAt, f, g);
  }

  lemma FileHeaderFields(im: Image, elf: Bytes)
    requires ImageOk(im) && Sits(elf, 0, FileHeader(im)) && |FileHeader(im)| == HeaderSize(im)
    ensures Sits(elf, 0, Ident(im))
    ensures Read(elf, if im.is64 then 0x20 else 0x1C, Wide(im), im.le) == Some(HeaderSize(im))
    ensures Read(elf, if im.is64 then 0x36 else 0x2A, 2, im.le) == Some(EntrySize(im))
    ensures Read(elf, if im.is64 then 0x38 else 0x2C, 2, im.le) == Some(Headers(im))
  {
    Pow256Values();
    var w, o := Wide(im), if im.is64 then 0x20 else 0x1C;
    var r3 := Write(Headers(im), 2, im.le) + im.c;
    var r2 := Write(EntrySize(im), 2, im.le) + r3;
    var r1 := Write(HeaderSize(im), w, im.le) + (im.b + r2);
    SitsSplit(elf, 0, Ident(im) + im.a, r1);
    SitsSplit(elf, 0, Ident(im), im.a);
    SitsSplit(elf, o, Write(HeaderSize(im), w, im.le), im.b + r2);
    SitsSplit(elf, o + w, im.b, r2);
    SitsSplit(elf, o + w + |im.b|, Write(EntrySize(im), 2, im.le), r3);
    SitsSplit(elf, o + w + |im.b| + 2, Write(Headers(im), 2, im.le), im.c);
    ReadWritten(elf, o, HeaderSize(im), w, im.le);
    ReadWritten(elf, o + w + |im.b|, EntrySize(im), 2, im.le);
    ReadWritten(elf, o + w + |im.b| + 2, Headers(im), 2, im.le);
  }

  lemma LayoutRead(im: Image)
    requires ImageOk(im)
    ensures ReadLayout(Render(im)) == Some(LayoutOf(im))
  {
    var elf := Render(im);
    PartsSit(im);
    FileHeaderFields(im, elf);
    assert |elf| >= 64;
    IdentRead(im, elf);
  }

  lemma IdentRead(im: Image, elf: Bytes)
    requires Sits(elf, 0, Ident(im))
    ensures elf[..4] == [0x7F, 'E' as int, 'L' as int, 'F' as int]
    ensures elf[4] == (if im.is64 then 2 else 1) && elf[5] == (if im.le then 1 else 2)
  {
    var id := Ident(im);
    assert elf[0..6] == id;
    assert elf[4] == elf[0..6][4] && elf[5] == elf[0..6][5];
    assert elf[..4] == elf[0..6][..4] == id[..4];
  }

  /** The header of a note segment says where the segment is. */
  lemma NoteHeaderFields(im: Image, elf: Bytes, off: nat, d: Bytes, e: Bytes, f: Bytes, start: nat, length: nat)
    requires UnusedOk(im, d, e, f) && start < Pow256(Wide(im)) && length < Pow256(Wide(im))
    requires Sits(elf, off, NoteHeaderFor(im, d, e, f, start, length))
    ensures Read(elf, off, 4, im.le) == Some(PT_NOTE)
    ensures Read(elf, off + (if im.is64 then 8 else 4), Wide(im), im.le) == Some(start)
    ensures Read(elf, off + (if im.is64 then 32 else 16), Wide(im), im.le) == Some(length)
  {
    Pow256Values();
    var kind, offset, size := Write(PT_NOTE, 4, im.le), Write(start, Wide(im), im.le), Write(length, Wide(im), im.le);
    if im.is64 {
      SitsSplit(elf, off, kind, d + (offset + (e + (size + f))));
      SitsSplit(elf, off + 4, d, offset + (e + (size + f)));
      SitsSplit(elf, off + 8, offset, e + (size + f));
      SitsSplit(elf, off + 16, e, size + f);
      SitsSplit(elf, off + 32, size, f);
    } else {
      SitsSplit(elf, off, kind, offset + (d + (size + e)));
      SitsSplit(elf, off + 4, offset, d + (size + e));
      SitsSplit(elf, off + 8, d, size + e);
      SitsSplit(elf, off + 16, size, e);
    }
    ReadWritten(elf, off, PT_NOTE, 4, im.le);
    ReadWritten(elf, off + (if im.is64 then 8 else 4), start, Wide(im), im.le);
    ReadWritten(elf, off + (if im.is64 then 32 else 16), length, Wide(im), im.le);
  }

  lemma {:induction false} EntrySits(b: Bytes, o: nat, entries: seq<Bytes>, size: nat, i: nat)
    requires Sits(b, o, Table(entries)) && forall k :: 0 <= k < |entries| ==> |entries[k]| == size
    requires i < |entries|
    ensures |Table(entries)| == |entries| * size
    ensures Sits(b, o + i * size, entries[i])
    decreases |entries|
  {
    var n := |entries| - 1;
    TableSize(entries, size);
    TableSize(entries[..n], size);
    SitsSplit(b, o, Table(entries[..n]), entries[n]);
    if i < n {
      EntrySits(b, o, entries[..n], size, i);
    }
  }

  lemma {:induction false} TableSize(entries: seq<Bytes>, size: nat)
    requires forall k :: 0 <= k < |entries| ==> |entries[k]| == size
    ensures |Table(entries)| == |entries| * size
    decreases |entries|
  {
    if entries != [] {
      var n := |entries| - 1;
      TableSize(entries[..n], size);
      assert n * size + size == (n + 1) * size;
    }
  }

  lemma ReadSame(b: Bytes, o: nat, part: Bytes, le: bool)
    requires Sits(b, o, part) && |part| >= 4
    ensures Read(b, o, 4, le) == Read(part, 0, 4, le)
  {
    assert b[o..o + 4] == b[o..o + |part|][..4] == part[0..4];
  }

  /** The reader goes on to the next header: another kind of header, or a note segment without a build-id. */
  ghost predicate Passed(elf: Bytes, l: Layout, i: nat) {
    var kind := Read(elf, Offset(l, i), 4, l.le);
    && kind.Some?
    && (kind.value == PT_NOTE ==>
          var notes := ReadSegment(elf, Offset(l, i), l);
          notes.Some? && ScanFrom(notes.value, 0, l.le) == None)
  }

  lemma {:induction false} PassedOver(elf: Bytes, l: Layout, i: nat, j: nat)
    requires i <= j <= l.phnum && forall k :: i <= k < j ==> Passed(elf, l, k)
    ensures FromHeaders(elf, l, i) == FromHeaders(elf, l, j)
    decreases j - i
  {
    if i < j {
      assert Passed(elf, l, i);
      PassedOver(elf, l, i + 1, j);
    }
  }

  /** Each part of a concatenation sits after those before it. */
  lemma {:induction false} PartSits(b: Bytes, o: nat, parts: seq<Bytes>, k: nat)
    requires Sits(b, o, Table(parts)) && k < |parts|
    ensures Sits(b, o + |Table(parts[..k])|, parts[k])
    decreases |parts|
  {
    var n := |parts| - 1;
    SitsSplit(b, o, Table(parts[..n]), parts[n]);
    if k < n {
      assert parts[..n][..k] == parts[..k];
      PartSits(b, o, parts[..n], k);
    }
  }

  lemma BlobSits(elf: Bytes, o: nat, others: seq<Other>, le: bool, k: nat)
    requires Sits(elf, o, Blobs(others, le)) && k < |others|
    ensures Sits(elf, o + |Blobs(others[..k], le)|, Blob(others[k], le))
  {
    PartSits(elf, o, BlobList(others, le), k);
    assert BlobList(others, le)[..k] == BlobList(others[..k], le);
  }

  /** No build-id among the notes, and no room for another note after them. */
  lemma OtherSegmentScan(notes: seq<Note>, rest: Bytes, le: bool)
    requires AllOthers(notes) && |rest| < 12
    ensures ScanFrom(RenderNotes(notes, le) + rest, 0, le) == None
  {
    var b := RenderNotes(notes, le) + rest;
    SitsAtStart(b);
    SitsSplit(b, 0, RenderNotes(notes, le), rest);
    ScanPassesAll(b, 0, notes, |RenderNotes(notes, le)|, le);
  }

  lemma OtherEntrySits(im: Image, elf: Bytes, k: nat)
    requires ImageOk(im) && k < |im.others| && Sits(elf, HeaderSize(im), Table(OtherEntries(im)))
    ensures Sits(elf, Offset(LayoutOf(im), k), OtherEntry(im, k))
  {
    EntriesFull(im);
    EntrySits(elf, HeaderSize(im), OtherEntries(im), EntrySize(im), k);
  }

  lemma OtherSegmentSits(im: Image, elf: Bytes, k: nat)
    requires k < |im.others| && im.others[k].OtherNotes? && Sits(elf, BlobsAt(im), Blobs(im.others, im.le))
    ensures Sits(elf, OtherOffset(im, k), OtherSegment(im.others[k], im.le))
  {
    var start := BlobsAt(im) + |Blobs(im.others[..k], im.le)|;
    BlobSits(elf, BlobsAt(im), im.others, im.le, k);
    SitsSplit(elf, start, im.others[k].gap, OtherSegment(im.others[k], im.le));
  }

  lemma OtherPassed(im: Image, elf: Bytes, k: nat)
    requires ImageOk(im) && k < |im.others| && Sits(elf, HeaderSize(im), Table(OtherEntries(im)))
    requires Sits(elf, BlobsAt(im), Blobs(im.others, im.le))
    ensures Passed(elf, LayoutOf(im), k)
  {
    OtherEntrySits(im, elf, k);
    assert OtherOk(im, k);
    if im.others[k].OtherNotes? {
      OtherSegmentSits(im, elf, k);
      OtherNotesPassed(im, elf, k);
    } else {
      OtherHeaderPassed(im, elf, k);
    }
  }

  lemma OtherHeaderPassed(im: Image, elf: Bytes, k: nat)
    requires k < |im.others| && im.others[k].OtherHeader? && OtherOk(im, k)
    requires Sits(elf, Offset(LayoutOf(im), k), OtherEntry(im, k))
    ensures Passed(elf, LayoutOf(im), k)
  {
    ReadSame(elf, Offset(LayoutOf(im), k), im.others[k].bytes, im.le);
  }

  lemma OtherNotesPassed(im: Image, elf: Bytes, k: nat)
    requires k < |im.others| && im.others[k].OtherNotes? && OtherOk(im, k)
    requires Sits(elf, Offset(LayoutOf(im), k), OtherEntry(im, k))
    requires Sits(elf, OtherOffset(im, k), OtherSegment(im.others[k], im.le))
    ensures Passed(elf, LayoutOf(im), k)
  {
    var o, off := im.others[k], Offset(LayoutOf(im), k);
    var start, segment := OtherOffset(im, k), OtherSegment(o, im.le);
    NoteHeaderFields(im, elf, off, o.d, o.e, o.f, start, |segment|);
    SegmentFrom(elf, off, LayoutOf(im), start, segment);
    OtherSegmentScan(o.notes, o.rest, im.le);
  }

  lemma SegmentRead(im: Image, elf: Bytes, off: nat)
    requires ImageOk(im) && Sits(elf, off, NoteEntry(im)) && Sits(elf, NoteOffset(im), Segment(im))
    ensures Read(elf, off, 4, im.le) == Some(PT_NOTE)
    ensures ReadSegment(elf, off, LayoutOf(im)) == Some(Segment(im))
  {
    NoteHeaderFields(im, elf, off, im.d, im.e, im.f, NoteOffset(im), |Segment(im)|);
    SegmentFrom(elf, off, LayoutOf(im), NoteOffset(im), Segment(im));
  }

  lemma SegmentFrom(elf: Bytes, off: nat, l: Layout, start: nat, notes: Bytes)
    requires Read(elf, off + (if l.is64 then 8 else 4), if l.is64 then 8 else 4, l.le) == Some(start)
    requires Read(elf, off + (if l.is64 then 32 else 16), if l.is64 then 8 else 4, l.le) == Some(|notes|)
    requires Sits(elf, start, notes)
    ensures ReadSegment(elf, off, l) == Some(notes)
  {
  }

  lemma HeaderFinds(elf: Bytes, l: Layout, i: nat, off: nat, notes: Bytes, id: string)
    requires i < l.phnum && off == Offset(l, i) && Read(elf, off, 4, l.le) == Some(PT_NOTE)
    requires ReadSegment(elf, off, l) == Some(notes) && ScanFrom(notes, 0, l.le) == Some(id)
    ensures FromHeaders(elf, l, i) == Some(id)
  {
  }

  lemma NoteHeaderFinds(im: Image, elf: Bytes)
    requires ImageOk(im) && Sits(elf, NoteOffset(im), Segment(im))
    requires Sits(elf, NoteEntryAt(im), NoteEntry(im))
    ensures FromHeaders(elf, LayoutOf(im), |im.others|) == Some(Hex(im.id.desc))
  {
    var off := NoteEntryAt(im);
    SegmentRead(im, elf, off);
    NotesScan(Segment(im), im.before, im.id, im.rest, im.le);
    HeaderFinds(elf, LayoutOf(im), |im.others|, off, Segment(im), Hex(im.id.desc));
  }

  /**
   ELF round trip: for every class, byte order, descriptor, list of other notes before the build-id
   and list of other program headers, note segments without a build-id among them, parsing the
   rendered image gives the descriptor in hex.
   */
  lemma RoundTrip(im: Image)
    requires ImageOk(im)
    ensures BuildIdOf(Render(im)) == Some(Hex(im.id.desc))
  {
    var elf := Render(im);
    LayoutRead(im);
    PartsSit(im);
    forall k | 0 <= k < |im.others|
      ensures Passed(elf, LayoutOf(im), k)
    {
      OtherPassed(im, elf, k);
    }
    PassedOver(elf, LayoutOf(im), 0, |im.others|);
    NoteHeaderFinds(im, elf);
  }

  // ----- which header decides, on arbitrary bytes -----

  /** The header is a note segment's, and the segment is not wholly in the buffer. */
  ghost predicate PointsOutside(elf: Bytes, l: Layout, i: nat) {
    Read(elf, Offset(l, i), 4, l.le) == Some(PT_NOTE) && ReadSegment(elf, Offset(l, i), l) == None
  }

  ghost predicate HoldsId(elf: Bytes, l: Layout, i: nat, id: string) {
    && Read(elf, Offset(l, i), 4, l.le) == Some(PT_NOTE)
    && ReadSegment(elf, Offset(l, i), l).Some?
    && ScanFrom(ReadSegment(elf, Offset(l, i), l).value, 0, l.le) == Some(id)
  }

  /**
   An earlier note segment that ends beyond the buffer, of which only a prefix of the file is read,
   hides the build-id whatever follows.
   */
  lemma SegmentOutsideHidesAll(elf: Bytes, l: Layout, i: nat)
    requires ReadLayout(elf) == Some(l) && i < l.phnum && PointsOutside(elf, l, i)
    requires forall k :: 0 <= k < i ==> Passed(elf, l, k)
    ensures BuildIdOf(elf) == None
  {
    PassedOver(elf, l, 0, i);
  }

  ghost predicate FirstWithId(elf: Bytes, l: Layout, i: nat, id: string) {
    i < l.phnum && HoldsId(elf, l, i, id) && forall k :: 0 <= k < i ==> Passed(elf, l, k)
  }

  /** The answer is the build-id of a note segment all of whose predecessors are passed over. */
  lemma AnswerIff(elf: Bytes, id: string)
    ensures BuildIdOf(elf) == Some(id)
            <==> ReadLayout(elf).Some? && exists i: nat :: FirstWithId(elf, ReadLayout(elf).value, i, id)
  {
    if ReadLayout(elf).Some? {
      var l := ReadLayout(elf).value;
      if i: nat :| FirstWithId(elf, l, i, id) {
        PassedOver(elf, l, 0, i);
      }
      if FromHeaders(elf, l, 0) == Some(id) {
        var i := FindsFirst(elf, l, 0, id);
        assert FirstWithId(elf, l, i, id);
      }
    }
  }

  lemma {:induction false} FindsFirst(elf: Bytes, l: Layout, i: nat, id: string) returns (j: nat)
    requires FromHeaders(elf, l, i) == Some(id)
    ensures i <= j < l.phnum && HoldsId(elf, l, j, id) && forall k :: i <= k < j ==> Passed(elf, l, k)
    decreases l.phnum - i
  {
    if HoldsId(elf, l, i, id) {
      j := i;
    } else {
      assert Passed(elf, l, i);
      j := FindsFirst(elf, l, i + 1, id);
    }
  }

  /** The smallest such image, little-endian with one note and zeros elsewhere. */
  function Minimal(is64: bool, desc: Bytes): Image {
    var gnu := ['G' as int, 'N' as int, 'U' as int, 0];
    if is64 then Image(true, true, Zeros(26), Zeros(14), Zeros(6), [], Zeros(4), Zeros(16), Zeros(16), 0, [],
                       [], Note(gnu, desc, NT_GNU_BUILD_ID), [], [])
    else Image(false, true, Zeros(22), Zeros(10), Zeros(6), [], Zeros(8), Zeros(12), [], 0, [],
               [], Note(gnu, desc, NT_GNU_BUILD_ID), [], [])
  }

  lemma MinimalSizes(is64: bool, desc: Bytes)
    ensures var im := Minimal(is64, desc);
            |Segment(im)| == 16 + RoundUp4(|desc|) && NoteOffset(im) == (if is64 then 120 else 84)
  {
    var im := Minimal(is64, desc);
    assert RenderNotes(im.before, im.le) == [] && |im.id.name| == 4;
  }

  lemma MinimalFits(is64: bool, desc: Bytes)
    requires |desc| < 0x8000_0000
    ensures ImageOk(Minimal(is64, desc))
  {
    MinimalSizes(is64, desc);
    Pow256Values();
    var im := Minimal(is64, desc);
    assert im.id.name[..3] == ['G' as int, 'N' as int, 'U' as int];
  }

  lemma LittleWords()
    ensures Write(PT_NOTE, 4, true) == [4, 0, 0, 0] && Write(NT_GNU_BUILD_ID, 4, true) == [3, 0, 0, 0]
    ensures Write(4, 4, true) == [4, 0, 0, 0]
  {
    assert ToLe(0, 1) == [0] && ToLe(0, 2) == [0, 0] && ToLe(0, 3) == [0, 0, 0];
  }

  /** What these images look like to other tools: a program header of type 4, and a note of type 3 named GNU. */
  lemma MinimalIsElf(is64: bool, desc: Bytes)
    requires |desc| < 0x8000_0000
    ensures var elf, note := Render(Minimal(is64, desc)), if is64 then 120 else 84;
            && Sits(elf, 0, [0x7F, 'E' as int, 'L' as int, 'F' as int])
            && Sits(elf, if is64 then 64 else 52, [4, 0, 0, 0])
            && Sits(elf, note, [4, 0, 0, 0]) && Sits(elf, note + 8, [3, 0, 0, 0])
            && Sits(elf, note + 12, ['G' as int, 'N' as int, 'U' as int, 0])
            && Sits(elf, note + 16, desc)
  {
    var im := Minimal(is64, desc);
    var elf := Render(im);
    MinimalFits(is64, desc);
    MinimalSizes(is64, desc);
    PartsSit(im);
    LittleWords();
    FirstBytes(im, elf);
    EntryBytes(im, elf);
    SegmentBytes(im, elf);
  }

  lemma FirstBytes(im: Image, elf: Bytes)
    requires Sits(elf, 0, FileHeader(im))
    ensures Sits(elf, 0, [0x7F, 'E' as int, 'L' as int, 'F' as int])
  {
    var magic := [0x7F, 'E' as int, 'L' as int, 'F' as int];
    var rest := Write(HeaderSize(im), Wide(im), im.le)
    + (im.b + (Write(EntrySize(im), 2, im.le) + (Write(Headers(im), 2, im.le) + im.c)));
    SitsSplit(elf, 0, Ident(im) + im.a, rest);
    SitsSplit(elf, 0, Ident(im), im.a);
    assert Ident(im) == magic + Ident(im)[4..];
    SitsSplit(elf, 0, magic, Ident(im)[4..]);
  }

  lemma EntryBytes(im: Image, elf: Bytes)
    requires im.others == [] && Sits(elf, NoteEntryAt(im), NoteEntry(im))
    ensures Sits(elf, HeaderSize(im), Write(PT_NOTE, 4, im.le))
  {
    var kind := Write(PT_NOTE, 4, im.le);
    assert NoteEntryAt(im) == HeaderSize(im);
    assert NoteEntry(im) == kind + NoteEntry(im)[|kind|..];
    SitsSplit(elf, HeaderSize(im), kind, NoteEntry(im)[|kind|..]);
  }

  lemma SegmentBytes(im: Image, elf: Bytes)
    requires im.before == [] && |im.id.name| == 4 && Sits(elf, NoteOffset(im), Segment(im))
    ensures var at := NoteOffset(im);
            && Sits(elf, at, Write(4, 4, im.le)) && Sits(elf, at + 8, Write(im.id.ntype, 4, im.le))
            && Sits(elf, at + 12, im.id.name) && Sits(elf, at + 16, im.id.desc)
  {
    var at := NoteOffset(im);
    assert Segment(im) == RenderNote(im.id, im.le) + im.rest;
    SitsSplit(elf, at, RenderNote(im.id, im.le), im.rest);
    NoteSits(elf, at, im.id, im.le);
    var x, y, z := Write(4, 4, im.le), Write(|im.id.desc|, 4, im.le), Write(im.id.ntype, 4, im.le);
    assert NoteHeader(im.id, im.le) == x + y + z;
    SitsInThree(elf, at, x, y, z);
  }

  lemma MinimalRoundTrip(is64: bool, desc: Bytes)
    requires |desc| < 0x8000_0000
    ensures BuildIdOf(Render(Minimal(is64, desc))) == Some(Hex(desc))
  {
    MinimalFits(is64, desc);
    RoundTrip(Minimal(is64, desc));
  }
}
