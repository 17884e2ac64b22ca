/** Reading the GNU build-id out of an ELF image. Offsets are mathematical integers. */
module BuildId {
  import opened Text

  type Byte = b: int | 0 <= b < 256
  type Bytes = seq<Byte>

  const NT_GNU_BUILD_ID: nat := 3
  const PT_NOTE: nat := 4

  // ----- integers -----

  function FromLe(s: Bytes): nat {
    if s == [] then 0 else s[0] + 256 * FromLe(s[1..])
  }

  function FromBe(s: Bytes): nat {
    if s == [] then 0 else 256 * FromBe(s[..|s| - 1]) + s[|s| - 1]
  }

  /** `read_u16`, `read_u32`, `read_u64`: `n` bytes at `o`, or nothing when they are not all there. */
  function Read(b: Bytes, o: nat, n: nat, le: bool): Option<nat> {
    if o + n <= |b| then Some(if le then FromLe(b[o..o + n]) else FromBe(b[o..o + n])) else None
  }

  // ----- hex -----

  /** The digits `0` to `9` and `a` to `f`. */
  function HexDigit(d: nat): char
    requires d < 16
  {
    if d < 10 then '0' + d as char else 'a' + (d - 10) as char
  }

  function Hex(bytes: Bytes): string {
    if bytes == [] then ""
    else
      var b := bytes[|bytes| - 1];
      Hex(bytes[..|bytes| - 1]) + [HexDigit(b / 16), HexDigit(b % 16)]
  }

  method HexOf(bytes: Bytes) returns (s: string)
    ensures s == Hex(bytes)
  {
    s := "";
    for i := 0 to |bytes|
      invariant s == Hex(bytes[..i])
    {
      assert bytes[..i + 1][..i] == bytes[..i];
      s := s + [HexDigit(bytes[i] / 16)];
      s := s + [HexDigit(bytes[i] % 16)];
    }
    assert bytes[..|bytes|] == bytes;
  }

  // ----- notes -----

  /** `(n + 3) & !3` */
  function RoundUp4(n: nat): (r: nat)
    ensures n <= r < n + 4
  {
    (n + 3) / 4 * 4
  }

  /** Names and descriptions are padded to multiples of four, and no further. */
  lemma PaddedToFour(n: nat)
    ensures RoundUp4(n) % 4 == 0
    ensures n % 4 == 0 ==> RoundUp4(n) == n
  {
  }

  predicate IsGnu(name: Bytes) {
    |name| >= 3 && name[..3] == ['G' as int, 'N' as int, 'U' as int]
  }

  /** Where a note's description is, where the next note starts, and whether it is a build-id. */
  datatype NoteView = NoteView(descStart: nat, descEnd: nat, next: nat, isBuildId: bool)

  /** The note at `pos`; nothing when the buffer ends before its description does. */
  function ReadNote(notes: Bytes, pos: nat, le: bool): (v: Option<NoteView>)
    ensures v.Some? ==> pos + 12 <= v.value.descStart <= v.value.descEnd <= |notes| && v.value.descEnd <= v.value.next
  {
    if pos + 12 > |notes| then None
    else
      var namesz, descsz, ntype := Read(notes, pos, 4, le).value, Read(notes, pos + 4, 4, le).value,
          Read(notes, pos + 8, 4, le).value;
      var nameStart := pos + 12;
      var descStart := nameStart + RoundUp4(namesz);
      var descEnd := descStart + descsz;
      if descEnd > |notes| then None
      else Some(NoteView(descStart, descEnd, descStart + RoundUp4(descsz),
                         ntype == NT_GNU_BUILD_ID && IsGnu(notes[nameStart..nameStart + namesz])))
  }

  /** The next build-id at or after `pos`. */
  function ScanFrom(notes: Bytes, pos: nat, le: bool): Option<string>
    decreases |notes| + 12 - pos
  {
    match ReadNote(notes, pos, le)
    case None => None
    case Some(v) => if v.isBuildId then Some(Hex(notes[v.descStart..v.descEnd])) else ScanFrom(notes, v.next, le)
  }

  method ScanNotes(notes: Bytes, le: bool) returns (id: Option<string>)
    ensures id == ScanFrom(notes, 0, le)
  {
    var pos := 0;
    while pos + 12 <= |notes|
      invariant ScanFrom(notes, 0, le) == ScanFrom(notes, pos, le)
      decreases |notes| + 12 - pos
    {
      var note := ReadNote(notes, pos, le);
      if note.None? {
        break;
      }
      if note.value.isBuildId {
        var hex := HexOf(notes[note.value.descStart..note.value.descEnd]);
        return Some(hex);
      }
      pos := note.value.next;
    }
    id := None;
  }

  // ----- headers -----

  datatype Layout = Layout(is64: bool, le: bool, phoff: nat, phentsize: nat, phnum: nat)

  function ReadLayout(elf: Bytes): Option<Layout> {
    if |elf| < 64 || elf[..4] != [0x7F, 'E' as int, 'L' as int, 'F' as int] then None
    else if elf[4] !in {1, 2} || elf[5] !in {1, 2} then None
    else
      var is64, le := elf[4] == 2, elf[5] == 1;
      if is64 then Some(Layout(is64, le, Read(elf, 0x20, 8, le).value, Read(elf, 0x36, 2, le).value,
                               Read(elf, 0x38, 2, le).value))
      else Some(Layout(is64, le, Read(elf, 0x1C, 4, le).value, Read(elf, 0x2A, 2, le).value,
                       Read(elf, 0x2C, 2, le).value))
  }

  /** The segment a program header at `off` describes. */
  function ReadSegment(elf: Bytes, off: nat, l: Layout): Option<Bytes> {
    var start := if l.is64 then Read(elf, off + 8, 8, l.le) else Read(elf, off + 4, 4, l.le);
    var size := if l.is64 then Read(elf, off + 32, 8, l.le) else Read(elf, off + 16, 4, l.le);
    if start.None? || size.None? || start.value + size.value > |elf| then None
    else Some(elf[start.value..start.value + size.value])
  }

  function Offset(l: Layout, i: nat): nat {
    l.phoff + i * l.phentsize
  }

  /** The build-id in the first `PT_NOTE` segment from header `i` on that has one. */
  function FromHeaders(elf: Bytes, l: Layout, i: nat): Option<string>
    decreases l.phnum - i
  {
    if i >= l.phnum then None
    else
      var off := Offset(l, i);
      var kind := Read(elf, off, 4, l.le);
      if kind.None? then None
      else if kind.value != PT_NOTE then FromHeaders(elf, l, i + 1)
      else
        var notes := ReadSegment(elf, off, l);
        if notes.None? then None
        else
          var id := ScanFrom(notes.value, 0, l.le);
          if id.Some? then id else FromHeaders(elf, l, i + 1)
  }

  function BuildIdOf(elf: Bytes): Option<string> {
    var l := ReadLayout(elf);
    if l.None? then None else FromHeaders(elf, l.value, 0)
  }

  method BuildIdFromBytes(elf: Bytes) returns (id: Option<string>)
    ensures id == BuildIdOf(elf)
  {
    var layout := ReadLayout(elf);
    if layout.None? {
      return None;
    }
    var l := layout.value;
    for i := 0 to l.phnum
      invariant BuildIdOf(elf) == FromHeaders(elf, l, i)
    {
      var off := Offset(l, i);
      var kind := Read(elf, off, 4, l.le);
      if kind.None? {
        return None;
      }
      if kind.value == PT_NOTE {
        var notes := ReadSegment(elf, off, l);
        if notes.None? {
          return None;
        }
        id := ScanNotes(notes.value, l.le);
        if id.Some? {
          return;
        }
      }
    }
    id := None;
  }

  // ----- on arbitrary bytes -----

  /** An image is looked into if and only if it has 64 bytes, the magic number, and a known class and byte order. */
  lemma LayoutIff(elf: Bytes)
    ensures ReadLayout(elf).Some?
            <==> |elf| >= 64 && elf[..4] == [0x7F, 'E' as int, 'L' as int, 'F' as int]
                 && (elf[4] == 1 || elf[4] == 2) && (elf[5] == 1 || elf[5] == 2)
    ensures ReadLayout(elf).Some? ==>
              (ReadLayout(elf).value.is64 <==> elf[4] == 2) && (ReadLayout(elf).value.le <==> elf[5] == 1)
    ensures ReadLayout(elf).None? ==> BuildIdOf(elf) == None
  {
  }

  /** `id` is the hex of bytes that are in the buffer. */
  ghost predicate HexOfSlice(buffer: Bytes, id: string) {
    exists lo: nat, hi: nat {:trigger buffer[lo..hi]} :: lo <= hi <= |buffer| && id == Hex(buffer[lo..hi])
  }

  lemma {:induction false} ScanStaysInside(notes: Bytes, pos: nat, le: bool)
    ensures var r := ScanFrom(notes, pos, le); r.Some? ==> HexOfSlice(notes, r.value)
    decreases |notes| + 12 - pos
  {
    match ReadNote(notes, pos, le)
    case None =>
    case Some(v) =>
      if v.isBuildId {
        SliceIsInside(notes, v.descStart, v.descEnd);
      } else {
        ScanStaysInside(notes, v.next, le);
      }
  }

  lemma SliceIsInside(buffer: Bytes, lo: nat, hi: nat)
    requires lo <= hi <= |buffer|
    ensures HexOfSlice(buffer, Hex(buffer[lo..hi]))
  {
  }

  lemma SliceOfSlice(elf: Bytes, start: nat, end: nat, id: string)
    requires start <= end <= |elf| && HexOfSlice(elf[start..end], id)
    ensures HexOfSlice(elf, id)
  {
    var part := elf[start..end];
    var lo: nat, hi: nat :| lo <= hi <= |part| && id == Hex(part[lo..hi]);
    var whole := elf[start + lo..start + hi];
    assert forall k :: 0 <= k < hi - lo ==> whole[k] == elf[start + lo + k] == part[lo..hi][k];
    assert whole == part[lo..hi];
    SliceIsInside(elf, start + lo, start + hi);
  }

  lemma SegmentIsInside(elf: Bytes, off: nat, l: Layout, id: string)
    requires ReadSegment(elf, off, l).Some? && HexOfSlice(ReadSegment(elf, off, l).value, id)
    ensures HexOfSlice(elf, id)
  {
    var start := (if l.is64 then Read(elf, off + 8, 8, l.le) else Read(elf, off + 4, 4, l.le)).value;
    var notes := ReadSegment(elf, off, l).value;
    assert notes == elf[start..start + |notes|];
    SliceOfSlice(elf, start, start + |notes|, id);
  }

  lemma HeaderStaysInside(elf: Bytes, l: Layout, off: nat)
    ensures var notes := ReadSegment(elf, off, l);
            notes.Some? && ScanFrom(notes.value, 0, l.le).Some? ==>
              HexOfSlice(elf, ScanFrom(notes.value, 0, l.le).value)
  {
    var notes := ReadSegment(elf, off, l);
    if notes.Some? && ScanFrom(notes.value, 0, l.le).Some? {
      ScanStaysInside(notes.value, 0, l.le);
      SegmentIsInside(elf, off, l, ScanFrom(notes.value, 0, l.le).value);
    }
  }

  lemma {:induction false} HeadersStayInside(elf: Bytes, l: Layout, i: nat)
    ensures var r := FromHeaders(elf, l, i); r.Some? ==> HexOfSlice(elf, r.value)
    decreases l.phnum - i
  {
    if i < l.phnum {
      HeadersStayInside(elf, l, i + 1);
      HeaderStaysInside(elf, l, Offset(l, i));
    }
  }

  /** Whatever the bytes, an answer is the hex of a slice of the buffer. */
  lemma AnswerIsInsideTheBuffer(elf: Bytes)
    ensures BuildIdOf(elf).Some? ==> HexOfSlice(elf, BuildIdOf(elf).value)
  {
    if ReadLayout(elf).Some? {
      HeadersStayInside(elf, ReadLayout(elf).value, 0);
    }
  }
}
