/**
 * The byte-level reader that finds the manifest in a published tarball, and the archives it inverts.
 *
 * Header text is handled as bytes. `HeaderBlock` lays a header out as the "ustar Interchange Format"
 * section of the pax utility in IEEE Std 1003.1-2017 does; fields the reader never looks at are
 * arbitrary bytes of the right length.
 */
module TarArchive {
  import opened Text

  type byte = b: int | 0 <= b < 256

  const BLOCK := 512
  const NAME_LENGTH := 100
  const SIZE_OFFSET := 124
  const SIZE_LENGTH := 12
  const TYPE_OFFSET := 156
  const PREFIX_OFFSET := 345
  const PREFIX_LENGTH := 155
  const SIZE_DIGITS := 11

  function Bytes(s: string): (bs: seq<byte>)
    requires forall i :: 0 <= i < |s| ==> s[i] < 128 as char
    ensures |bs| == |s| && forall i :: 0 <= i < |s| ==> bs[i] == s[i] as int
  {
    seq(|s|, i requires 0 <= i < |s| => s[i] as int)
  }

  const SLASH: byte := 47
  const BACKSLASH: byte := 92
  const NORMAL_FILE: byte := 48
  const CURRENT_DIR: seq<byte> := Bytes("./")
  const MANIFEST: seq<byte> := Bytes("manifest.yaml")

  // ---------------------------------------------------------------------------------------------
  // Header fields
  // ---------------------------------------------------------------------------------------------

  /** The ASCII characters that `trim` removes. */
  predicate IsBlank(b: byte) {
    9 <= b <= 13 || b == 32
  }

  function CutAtNull(raw: seq<byte>): seq<byte> {
    if raw == [] || raw[0] == 0 then [] else [raw[0]] + CutAtNull(raw[1..])
  }

  function TrimLeft(s: seq<byte>): (t: seq<byte>)
    ensures |t| <= |s|
  {
    if s != [] && IsBlank(s[0]) then TrimLeft(s[1..]) else s
  }

  function TrimRight(s: seq<byte>): (t: seq<byte>)
    ensures |t| <= |s|
  {
    if s != [] && IsBlank(s[|s| - 1]) then TrimRight(s[..|s| - 1]) else s
  }

  function TrimBytes(s: seq<byte>): seq<byte> {
    TrimRight(TrimLeft(s))
  }

  function HeaderField(block: seq<byte>, offset: nat, length: nat): seq<byte>
    requires offset + length <= |block|
  {
    TrimBytes(CutAtNull(block[offset..offset + length]))
  }

  function WithoutNulls(s: seq<byte>): seq<byte> {
    if s == [] then [] else (if s[0] == 0 then [] else [s[0]]) + WithoutNulls(s[1..])
  }

  predicate IsOctal(b: byte) {
    48 <= b <= 55
  }

  /** The value of the leading octal digits, as `Number.parseInt` reads them. */
  function OctalPrefix(s: seq<byte>, value: nat): nat {
    if s != [] && IsOctal(s[0]) then OctalPrefix(s[1..], value * 8 + (s[0] - 48)) else value
  }

  /** An absent, malformed or negative size counts as 0. */
  function ParseSizeOctal(raw: seq<byte>): nat {
    var s := TrimBytes(WithoutNulls(raw));
    if s == [] || s[0] == 45 then 0
    else if s[0] == 43 then OctalPrefix(s[1..], 0)
    else OctalPrefix(s, 0)
  }

  function ForwardSlashes(path: seq<byte>): seq<byte> {
    seq(|path|, i requires 0 <= i < |path| => if path[i] == BACKSLASH then SLASH else path[i])
  }

  function NormalizePath(path: seq<byte>): seq<byte> {
    var normalized := ForwardSlashes(path);
    if CURRENT_DIR <= normalized then normalized[|CURRENT_DIR|..] else normalized
  }

  predicate EndsWith(s: seq<byte>, suffix: seq<byte>) {
    |suffix| <= |s| && s[|s| - |suffix|..] == suffix
  }

  predicate IsManifestPath(path: seq<byte>) {
    var normalized := NormalizePath(path);
    normalized == MANIFEST || EndsWith(normalized, [SLASH] + MANIFEST)
  }

  lemma EndsWithTail(front: seq<byte>, rest: seq<byte>, suffix: seq<byte>)
    requires |rest| >= |suffix|
    ensures EndsWith(front + rest, suffix) <==> EndsWith(rest, suffix)
  {
    assert (front + rest)[|front + rest| - |suffix|..] == rest[|rest| - |suffix|..];
  }

  lemma EndsWithSelf(s: seq<byte>, suffix: seq<byte>)
    requires |s| <= |suffix|
    ensures EndsWith(s, suffix) <==> s == suffix
  {
    assert s[0..] == s;
  }

  lemma DropDirMeans(dir: byte, rest: seq<byte>, name: seq<byte>)
    requires dir != SLASH && name != [] && name[0] != dir
    ensures var q, tail := [dir] + ([SLASH] + rest), [SLASH] + name;
            rest == name || EndsWith(rest, tail) <==> q == name || EndsWith(q, tail)
  {
    var slashed, tail := [SLASH] + rest, [SLASH] + name;
    var q := [dir] + slashed;
    assert q[0] == dir && q != name;
    if |slashed| >= |tail| {
      EndsWithTail([dir], slashed, tail);
    } else {
      assert tail[0] == SLASH;
      EndsWithSelf(q, tail);
    }
    if |rest| >= |tail| {
      EndsWithTail([SLASH], rest, tail);
    } else {
      EndsWithSelf(rest, tail);
      SlashedName(rest, name);
    }
  }

  lemma SlashedName(rest: seq<byte>, name: seq<byte>)
    requires |rest| <= |name|
    ensures EndsWith([SLASH] + rest, [SLASH] + name) <==> rest == name
  {
    EndsWithSelf([SLASH] + rest, [SLASH] + name);
    assert ([SLASH] + rest)[1..] == rest && ([SLASH] + name)[1..] == name;
  }

  /** Whatever the slashes, a manifest path is the bare name or ends in a slash and the name. */
  lemma ManifestPathMeans(path: seq<byte>)
    ensures IsManifestPath(path) <==>
            ForwardSlashes(path) == MANIFEST || EndsWith(ForwardSlashes(path), [SLASH] + MANIFEST)
  {
    var q := ForwardSlashes(path);
    if CURRENT_DIR <= q {
      var rest := q[|CURRENT_DIR|..];
      assert q == [CURRENT_DIR[0]] + ([SLASH] + rest);
      DropDirMeans(CURRENT_DIR[0], rest, MANIFEST);
    }
  }

  function JoinPath(prefix: seq<byte>, name: seq<byte>): seq<byte> {
    if |prefix| > 0 then prefix + [SLASH] + name else name
  }

  /** The name is `manifest.yaml`, or ends in it after a slash (47) or a backslash (92). */
  predicate EndsInManifest(name: seq<byte>) {
    && |name| >= 13 && name[|name| - 13..] == Bytes("manifest.yaml")
    && (|name| == 13 || name[|name| - 14] == 47 || name[|name| - 14] == 92)
  }

  lemma SlashesKeep(path: seq<byte>, suffix: seq<byte>)
    requires SLASH !in suffix && BACKSLASH !in suffix
    ensures EndsWith(ForwardSlashes(path), suffix) <==> EndsWith(path, suffix)
  {
    if |suffix| <= |path| {
      var q, from := ForwardSlashes(path), |path| - |suffix|;
      if q[from..] == suffix {
        forall i | 0 <= i < |suffix| ensures path[from..][i] == suffix[i] {
          assert q[from..][i] == suffix[i];
        }
      }
      if path[from..] == suffix {
        forall i | 0 <= i < |suffix| ensures q[from..][i] == suffix[i] {
          assert path[from..][i] == suffix[i];
        }
      }
    }
  }

  lemma EndsWithSlashed(q: seq<byte>, name: seq<byte>)
    ensures EndsWith(q, [SLASH] + name) <==> EndsWith(q, name) && |q| > |name| && q[|q| - |name| - 1] == SLASH
  {
    if |q| > |name| {
      var end := q[|q| - |name| - 1..];
      assert end == [q[|q| - |name| - 1]] + q[|q| - |name|..];
      assert ([SLASH] + name)[0] == SLASH && ([SLASH] + name)[1..] == name;
      assert end[1..] == q[|q| - |name|..];
    }
  }

  predicate NamedBy(path: seq<byte>, name: seq<byte>) {
    EndsWith(path, name) && (|path| == |name| || path[|path| - |name| - 1] in [SLASH, BACKSLASH])
  }

  lemma EitherSlashNames(path: seq<byte>, name: seq<byte>)
    requires SLASH !in name && BACKSLASH !in name
    ensures var q := ForwardSlashes(path); q == name || EndsWith(q, [SLASH] + name) <==> NamedBy(path, name)
  {
    var q := ForwardSlashes(path);
    SlashesKeep(path, name);
    EndsWithSlashed(q, name);
    if |path| == |name| {
      EndsWithSelf(q, name);
    }
  }

  lemma NamedAfterPrefix(prefix: seq<byte>, last: seq<byte>, name: seq<byte>)
    requires SLASH !in name
    ensures NamedBy(prefix + [SLASH] + last, name) <==> NamedBy(last, name)
  {
    var path := prefix + [SLASH] + last;
    if |last| >= |name| {
      EndsWithTail(prefix + [SLASH], last, name);
      assert |last| > |name| ==> path[|path| - |name| - 1] == last[|last| - |name| - 1];
    } else if |path| >= |name| {
      assert path[|path| - |name|..][|name| - |last| - 1] == SLASH;
    }
  }

  lemma AnyPrefixNames(prefix: seq<byte>, last: seq<byte>, name: seq<byte>)
    requires SLASH !in name && BACKSLASH !in name
    ensures var q := ForwardSlashes(JoinPath(prefix, last));
            q == name || EndsWith(q, [SLASH] + name) <==> NamedBy(last, name)
  {
    EitherSlashNames(JoinPath(prefix, last), name);
    if |prefix| > 0 {
      NamedAfterPrefix(prefix, last, name);
    }
  }

  lemma ManifestIsPlain()
    ensures SLASH !in MANIFEST && BACKSLASH !in MANIFEST
  {
  }

  lemma NamedManifest(name: seq<byte>)
    ensures NamedBy(name, MANIFEST) <==> EndsInManifest(name)
  {
  }

  /** What names the manifest is the name field: the prefix does not matter. */
  lemma NameDecides(prefix: seq<byte>, name: seq<byte>)
    ensures IsManifestPath(JoinPath(prefix, name)) <==> EndsInManifest(name)
  {
    ManifestPathMeans(JoinPath(prefix, name));
    ManifestIsPlain();
    AnyPrefixNames(prefix, name, MANIFEST);
    NamedManifest(name);
  }

  // ---------------------------------------------------------------------------------------------
  // What the header fields mean
  // ---------------------------------------------------------------------------------------------

  /** `cut` is `raw` up to its first NUL. */
  lemma {:induction false} CutMeans(raw: seq<byte>)
    ensures var cut := CutAtNull(raw);
            cut <= raw && 0 !in cut && (|cut| < |raw| ==> raw[|cut|] == 0)
  {
    if raw != [] && raw[0] != 0 {
      CutMeans(raw[1..]);
    }
  }

  predicate AllBlank(s: seq<byte>) {
    forall i :: 0 <= i < |s| ==> 9 <= s[i] <= 13 || s[i] == 32
  }

  predicate NoBlankEnds(s: seq<byte>) {
    s != [] ==>
      && !(9 <= s[0] <= 13) && s[0] != 32
      && !(9 <= s[|s| - 1] <= 13) && s[|s| - 1] != 32
  }

  lemma {:induction false} TrimLeftMeans(s: seq<byte>) returns (left: seq<byte>)
    ensures s == left + TrimLeft(s) && AllBlank(left)
    ensures TrimLeft(s) != [] ==> !IsBlank(TrimLeft(s)[0])
  {
    left := [];
    if s != [] && IsBlank(s[0]) {
      left := TrimLeftMeans(s[1..]);
      left := [s[0]] + left;
    }
  }

  lemma {:induction false} TrimRightMeans(s: seq<byte>) returns (right: seq<byte>)
    ensures s == TrimRight(s) + right && AllBlank(right)
    ensures TrimRight(s) != [] ==> !IsBlank(TrimRight(s)[|TrimRight(s)| - 1])
  {
    right := [];
    if s != [] && IsBlank(s[|s| - 1]) {
      right := TrimRightMeans(s[..|s| - 1]);
      right := right + [s[|s| - 1]];
    }
  }

  /** Trimming takes the blanks off both ends and nothing else. */
  lemma TrimMeans(s: seq<byte>) returns (left: seq<byte>, right: seq<byte>)
    ensures s == left + TrimBytes(s) + right && AllBlank(left) && AllBlank(right) && NoBlankEnds(TrimBytes(s))
  {
    left := TrimLeftMeans(s);
    right := TrimRightMeans(TrimLeft(s));
    assert TrimLeft(s) == TrimBytes(s) + right;
    assert TrimBytes(s) != [] ==> TrimBytes(s)[0] == TrimLeft(s)[0];
  }

  // ---------------------------------------------------------------------------------------------
  // The reader
  // ---------------------------------------------------------------------------------------------

  predicate IsZeroBlock(block: seq<byte>) {
    forall i :: 0 <= i < |block| ==> block[i] == 0
  }

  function EntryPath(header: seq<byte>): seq<byte>
    requires |header| == BLOCK
  {
    JoinPath(HeaderField(header, PREFIX_OFFSET, PREFIX_LENGTH), HeaderField(header, 0, NAME_LENGTH))
  }

  function EntrySize(header: seq<byte>): nat
    requires |header| == BLOCK
  {
    ParseSizeOctal(HeaderField(header, SIZE_OFFSET, SIZE_LENGTH))
  }

  predicate IsRegular(header: seq<byte>)
    requires |header| == BLOCK
  {
    var kind := HeaderField(header, TYPE_OFFSET, 1);
    kind == [] || kind == [NORMAL_FILE]
  }

  /** The size rounded up to whole blocks of 512. */
  function Padded(size: nat): (padded: nat)
    ensures size <= padded
  {
    (size + 511) / 512 * 512
  }

  predicate Aligned(cursor: nat) {
    cursor % 512 == 0
  }

  lemma PaddingFills(cursor: nat, size: nat)
    ensures Padded(size) < size + BLOCK
    ensures Aligned(cursor) ==> Aligned(cursor + BLOCK + Padded(size))
  {
    var blocks := (size + 511) / 512;
    assert (cursor + 512 + 512 * blocks) % 512 == cursor % 512;
  }

  type Block = block: seq<byte> | |block| == BLOCK witness Zeros(BLOCK)

  /** All that the reader learns from one header block. */
  datatype Header = EndOfArchive | Entry(isManifest: bool, size: nat)

  function ReadHeader(block: Block): Header {
    if IsZeroBlock(block) then EndOfArchive
    else Entry(IsRegular(block) && IsManifestPath(EntryPath(block)), EntrySize(block))
  }

  datatype Reading = Stop | Found(content: seq<byte>) | Skip(size: nat)

  /** What the entry at `cursor` means to the reader; an entry cut short stops it. */
  function Read(tar: seq<byte>, cursor: nat, header: Block -> Header): Reading
    requires cursor + BLOCK <= |tar|
  {
    var start := cursor + BLOCK;
    match header(tar[cursor..start])
    case EndOfArchive => Stop
    case Entry(isManifest, size) =>
      if start + size > |tar| then Stop
      else if isManifest then Found(tar[start..start + size])
      else Skip(size)
  }

  /** The manifest found by reading entries from `cursor` on. */
  function ReadFrom(tar: seq<byte>, cursor: nat, header: Block -> Header): Option<seq<byte>>
    decreases if cursor <= |tar| then |tar| - cursor else 0
  {
    if cursor + BLOCK > |tar| then None
    else match Read(tar, cursor, header)
      case Stop => None
      case Found(content) => Some(content)
      case Skip(size) => ReadFrom(tar, cursor + BLOCK + Padded(size), header)
  }

  function ManifestIn(tar: seq<byte>): Option<seq<byte>> {
    ReadFrom(tar, 0, ReadHeader)
  }

  predicate IsLikelyGzip(payload: seq<byte>) {
    |payload| >= 2 && payload[0] == 0x1f && payload[1] == 0x8b
  }

  /** `gunzip` is None where the library throws. */
  function DecodeTarPayload(payload: seq<byte>, gunzip: seq<byte> -> Option<seq<byte>>): seq<byte> {
    if IsLikelyGzip(payload) then gunzip(payload).GetOr(payload) else payload
  }

  predicate AlignedSlice(tar: seq<byte>, start: nat, slice: seq<byte>) {
    Aligned(start) && start + |slice| <= |tar| && tar[start..start + |slice|] == slice
  }

  /** On any bytes at all: ends, stays in bounds, and moves by whole blocks. */
  method Scan(tar: seq<byte>, header: Block -> Header) returns (manifest: Option<seq<byte>>)
    ensures manifest == ReadFrom(tar, 0, header)
    ensures manifest.Some? ==> exists start :: AlignedSlice(tar, start, manifest.value)
  {
    var cursor := 0;
    while cursor + BLOCK <= |tar|
      invariant Aligned(cursor)
      invariant ReadFrom(tar, cursor, header) == ReadFrom(tar, 0, header)
    {
      var contentStart := cursor + BLOCK;
      match header(tar[cursor..contentStart]) {
        case EndOfArchive =>
          return None;
        case Entry(isManifest, size) =>
          var contentEnd := contentStart + size;
          if contentEnd > |tar| {
            return None;
          }
          PaddingFills(cursor, 0);
          if isManifest {
            assert AlignedSlice(tar, contentStart, tar[contentStart..contentEnd]);
            return Some(tar[contentStart..contentEnd]);
          }
          PaddingFills(cursor, size);
          cursor := contentStart + Padded(size);
      }
    }
    return None;
  }

  method ReadManifestFromTarball(payload: seq<byte>, gunzip: seq<byte> -> Option<seq<byte>>)
    returns (manifest: Option<seq<byte>>)
    ensures manifest == ManifestIn(DecodeTarPayload(payload, gunzip))
    ensures DecodeTarPayload(payload, gunzip) ==
            if |payload| >= 2 && payload[0] == 31 && payload[1] == 139 && gunzip(payload).Some?
            then gunzip(payload).value else payload
    ensures manifest.Some? ==>
              exists start :: AlignedSlice(DecodeTarPayload(payload, gunzip), start, manifest.value)
  {
    manifest := Scan(DecodeTarPayload(payload, gunzip), ReadHeader);
  }

  // ---------------------------------------------------------------------------------------------
  // The archives it reads
  // ---------------------------------------------------------------------------------------------

  datatype TarEntry = TarEntry(
    name: seq<byte>, prefix: seq<byte>, typeflag: byte, content: seq<byte>,
    sizeEnd: byte,       // the size field ends in a space or a NUL
    owner: seq<byte>,    // mode, uid, gid
    stamps: seq<byte>,   // mtime, chksum
    links: seq<byte>,    // linkname, magic, version, uname, gname, devmajor, devminor
    spare: seq<byte>)

  function Pow8(n: nat): nat {
    if n == 0 then 1 else 8 * Pow8(n - 1)
  }

  predicate PlainText(s: seq<byte>) {
    0 !in s && TrimBytes(s) == s
  }

  predicate WellFormed(e: TarEntry) {
    && |e.name| <= NAME_LENGTH && PlainText(e.name)
    && |e.prefix| <= PREFIX_LENGTH && PlainText(e.prefix)
    && !IsBlank(e.typeflag)
    && |e.content| < Pow8(SIZE_DIGITS)
    && (e.sizeEnd == 0 || e.sizeEnd == 32)
    && |e.owner| == 24 && |e.stamps| == 20 && |e.links| == 188 && |e.spare| == 12
  }

  function Zeros(n: nat): seq<byte> {
    seq(n, _ => 0)
  }

  function PadTo(s: seq<byte>, width: nat): seq<byte>
    requires |s| <= width
  {
    s + Zeros(width - |s|)
  }

  function Octal(n: nat, digits: nat): (s: seq<byte>)
    ensures |s| == digits
    ensures forall i :: 0 <= i < |s| ==> IsOctal(s[i])
  {
    if digits == 0 then [] else Octal(n / 8, digits - 1) + [48 + n % 8]
  }

  function HeaderBlock(e: TarEntry): (h: seq<byte>)
    requires WellFormed(e)
    ensures |h| == BLOCK
  {
    PadTo(e.name, NAME_LENGTH) + e.owner + Octal(|e.content|, SIZE_DIGITS) + [e.sizeEnd] + e.stamps
    + [e.typeflag] + e.links + PadTo(e.prefix, PREFIX_LENGTH) + e.spare
  }

  function EntryBlocks(e: TarEntry): seq<byte>
    requires WellFormed(e)
  {
    HeaderBlock(e) + e.content + Zeros(Padded(|e.content|) - |e.content|)
  }

  predicate AllWellFormed(entries: seq<TarEntry>) {
    forall i :: 0 <= i < |entries| ==> WellFormed(entries[i])
  }

  function Archive(entries: seq<TarEntry>): seq<byte>
    requires AllWellFormed(entries)
  {
    if entries == [] then Zeros(2 * BLOCK) else EntryBlocks(entries[0]) + Archive(entries[1..])
  }

  /** A regular entry, typeflag NUL or the digit 0, whose name ends in the manifest's, whatever its prefix. */
  predicate HoldsManifest(e: TarEntry) {
    (e.typeflag == 0 || e.typeflag == 48) && EndsInManifest(e.name)
  }

  function FirstManifest(entries: seq<TarEntry>): Option<seq<byte>> {
    if entries == [] then None
    else if HoldsManifest(entries[0]) then Some(entries[0].content)
    else FirstManifest(entries[1..])
  }

  // ---------------------------------------------------------------------------------------------
  // Reading back what was written
  // ---------------------------------------------------------------------------------------------

  lemma {:induction false} CutKeepsText(s: seq<byte>, n: nat)
    requires 0 !in s
    ensures CutAtNull(s + Zeros(n)) == s
    ensures CutAtNull(s) == s
  {
    if s == [] {
      assert s + Zeros(n) == Zeros(n);
    } else {
      assert (s + Zeros(n))[1..] == s[1..] + Zeros(n);
      CutKeepsText(s[1..], n);
    }
  }

  lemma {:induction false} OctalRoundTrip(n: nat, digits: nat, rest: seq<byte>, value: nat)
    requires n < Pow8(digits)
    ensures OctalPrefix(Octal(n, digits) + rest, value) == OctalPrefix(rest, value * Pow8(digits) + n)
  {
    if digits == 0 {
      assert Octal(n, digits) + rest == rest;
    } else {
      var last: byte := 48 + n % 8;
      assert Octal(n, digits) + rest == Octal(n / 8, digits - 1) + ([last] + rest);
      OctalRoundTrip(n / 8, digits - 1, [last] + rest, value);
      OneDigit(last, rest, value * Pow8(digits - 1) + n / 8);
      Regroup(value, Pow8(digits - 1), n);
    }
  }

  lemma OneDigit(digit: byte, rest: seq<byte>, value: nat)
    requires IsOctal(digit)
    ensures OctalPrefix([digit] + rest, value) == OctalPrefix(rest, value * 8 + (digit - 48))
  {
    assert ([digit] + rest)[1..] == rest;
  }

  lemma Regroup(value: nat, p: nat, n: nat)
    ensures (value * p + n / 8) * 8 + n % 8 == value * (8 * p) + n
  {
  }

  lemma {:induction false} NothingToCutOrStrip(s: seq<byte>)
    requires forall i :: 0 <= i < |s| ==> IsOctal(s[i])
    ensures 0 !in s && TrimBytes(s) == s && WithoutNulls(s) == s
  {
    if s != [] {
      NothingToCutOrStrip(s[1..]);
    }
  }

  lemma SizeReadsBack(n: nat, width: nat, end: byte)
    requires width > 0 && n < Pow8(width) && (end == 0 || end == 32)
    ensures ParseSizeOctal(TrimBytes(CutAtNull(Octal(n, width) + [end]))) == n
  {
    var digits := Octal(n, width);
    NothingToCutOrStrip(digits);
    EndIsStripped(digits, end);
    OctalDigitsReadBack(n, width);
    assert ParseSizeOctal(digits) == OctalPrefix(digits, 0);
  }

  lemma OctalDigitsReadBack(n: nat, width: nat)
    requires n < Pow8(width)
    ensures OctalPrefix(Octal(n, width), 0) == n
  {
    assert Octal(n, width) + [] == Octal(n, width);
    OctalRoundTrip(n, width, [], 0);
  }

  lemma {:induction false} KeptWhole(s: seq<byte>)
    requires 0 !in s
    ensures WithoutNulls(s) == s
  {
    if s != [] {
      KeptWhole(s[1..]);
    }
  }

  lemma TrimKeeps(s: seq<byte>)
    requires NoBlankEnds(s)
    ensures TrimBytes(s) == s
  {
  }

  /**
   * A size is read up to what is no octal digit, with a plus sign in front or without; a negative one
   * counts as 0.
   */
  lemma SizeStopsAtJunk(n: nat, width: nat, junk: seq<byte>)
    requires width > 0 && n < Pow8(width) && 0 !in junk && NoBlankEnds(junk)
    requires junk != [] ==> !(48 <= junk[0] <= 55)
    ensures var s := Octal(n, width) + junk;
            ParseSizeOctal(s) == n && ParseSizeOctal([43] + s) == n && ParseSizeOctal([45] + s) == 0
  {
    DigitsThenJunk(n, width, junk);
    DigitsFirst(Octal(n, width), junk);
    SizeReadings(Octal(n, width) + junk, n);
  }

  lemma DigitsThenJunk(n: nat, width: nat, junk: seq<byte>)
    requires n < Pow8(width) && (junk != [] ==> !IsOctal(junk[0]))
    ensures OctalPrefix(Octal(n, width) + junk, 0) == n
  {
    OctalRoundTrip(n, width, junk, 0);
  }

  /** A size without a digit in front, or none at all, counts as 0. */
  lemma NoDigits(junk: seq<byte>)
    requires 0 !in junk && NoBlankEnds(junk) && (junk != [] ==> !(48 <= junk[0] <= 55) && junk[0] != 43)
    ensures ParseSizeOctal(junk) == 0
  {
    KeptWhole(junk);
    TrimKeeps(junk);
  }

  lemma DigitsFirst(digits: seq<byte>, junk: seq<byte>)
    requires digits != [] && (forall i :: 0 <= i < |digits| ==> IsOctal(digits[i])) && 0 !in junk && NoBlankEnds(junk)
    ensures var s := digits + junk; s != [] && IsOctal(s[0]) && 0 !in s && NoBlankEnds(s)
  {
  }

  lemma SizeReadings(s: seq<byte>, n: nat)
    requires s != [] && IsOctal(s[0]) && 0 !in s && NoBlankEnds(s) && OctalPrefix(s, 0) == n
    ensures ParseSizeOctal(s) == n && ParseSizeOctal([43] + s) == n && ParseSizeOctal([45] + s) == 0
  {
    KeptWhole(s);
    TrimKeeps(s);
    Signed(43, s);
    Signed(45, s);
  }

  lemma Signed(sign: byte, s: seq<byte>)
    requires s != [] && 0 !in s && NoBlankEnds(s) && (sign == 43 || sign == 45)
    ensures ParseSizeOctal([sign] + s) == if sign == 43 then OctalPrefix(s, 0) else 0
  {
    KeptWhole([sign] + s);
    TrimKeeps([sign] + s);
    assert ([sign] + s)[1..] == s;
  }

  lemma EndIsStripped(digits: seq<byte>, end: byte)
    requires digits != [] && IsOctal(digits[0]) && 0 !in digits && TrimBytes(digits) == digits
    requires end == 0 || end == 32
    ensures TrimBytes(CutAtNull(digits + [end])) == digits
  {
    if end == 0 {
      assert [end] == Zeros(1);
      CutKeepsText(digits, 1);
    } else {
      CutKeepsText(digits + [end], 0);
      assert (digits + [end])[..|digits|] == digits;
      assert TrimRight(digits + [end]) == TrimRight(digits);
    }
  }

  lemma FieldReadsBack(block: seq<byte>, offset: nat, width: nat, s: seq<byte>)
    requires |s| <= width && offset + width <= |block| && PlainText(s)
    requires block[offset..offset + width] == PadTo(s, width)
    ensures HeaderField(block, offset, width) == s
  {
    CutKeepsText(s, width - |s|);
  }

  lemma HeaderLayout(e: TarEntry)
    requires WellFormed(e)
    ensures var h := HeaderBlock(e);
            && h[0..NAME_LENGTH] == PadTo(e.name, NAME_LENGTH)
            && h[SIZE_OFFSET..SIZE_OFFSET + SIZE_LENGTH] == Octal(|e.content|, SIZE_DIGITS) + [e.sizeEnd]
            && h[TYPE_OFFSET..TYPE_OFFSET + 1] == [e.typeflag]
            && h[PREFIX_OFFSET..PREFIX_OFFSET + PREFIX_LENGTH] == PadTo(e.prefix, PREFIX_LENGTH)
  {
  }

  /** Every field the reader uses comes back from a written header. */
  lemma HeaderReadsBack(e: TarEntry)
    requires WellFormed(e)
    ensures var h := HeaderBlock(e);
            && !IsZeroBlock(h)
            && EntrySize(h) == |e.content|
            && EntryPath(h) == JoinPath(e.prefix, e.name)
            && (IsRegular(h) <==> e.typeflag == 0 || e.typeflag == NORMAL_FILE)
  {
    var h := HeaderBlock(e);
    HeaderLayout(e);
    FieldReadsBack(h, 0, NAME_LENGTH, e.name);
    FieldReadsBack(h, PREFIX_OFFSET, PREFIX_LENGTH, e.prefix);
    SizeReadsBack(|e.content|, SIZE_DIGITS, e.sizeEnd);
    SizeIsNotZero(h, Octal(|e.content|, SIZE_DIGITS), e.sizeEnd);
    TypeReadsBack(h, e.typeflag);
  }

  lemma SizeIsNotZero(h: Block, digits: seq<byte>, end: byte)
    requires digits != [] && IsOctal(digits[0])
    requires h[SIZE_OFFSET..SIZE_OFFSET + SIZE_LENGTH] == digits + [end]
    ensures !IsZeroBlock(h)
  {
    assert h[SIZE_OFFSET] == h[SIZE_OFFSET..SIZE_OFFSET + SIZE_LENGTH][0] == digits[0];
  }

  lemma TypeReadsBack(h: seq<byte>, typeflag: byte)
    requires |h| == BLOCK && h[TYPE_OFFSET..TYPE_OFFSET + 1] == [typeflag] && !IsBlank(typeflag)
    ensures IsRegular(h) <==> typeflag == 0 || typeflag == NORMAL_FILE
  {
    assert CutAtNull([typeflag]) == if typeflag == 0 then [] else [typeflag];
    assert HeaderField(h, TYPE_OFFSET, 1) == if typeflag == 0 then [] else [typeflag];
  }

  lemma ReadShifts(before: seq<byte>, tar: seq<byte>, cursor: nat, header: Block -> Header)
    requires cursor + BLOCK <= |tar|
    ensures Read(before + tar, |before| + cursor, header) == Read(tar, cursor, header)
  {
    var all, start := before + tar, cursor + BLOCK;
    assert all[|before| + cursor..|before| + start] == tar[cursor..start];
    var h := header(tar[cursor..start]);
    if h.Entry? && start + h.size <= |tar| {
      assert all[|before| + start..|before| + start + h.size] == tar[start..start + h.size];
    }
  }

  /** Reading past a prefix is reading the rest from its start. */
  lemma {:induction false} ReadingShifts(before: seq<byte>, tar: seq<byte>, cursor: nat, header: Block -> Header)
    ensures ReadFrom(before + tar, |before| + cursor, header) == ReadFrom(tar, cursor, header)
    decreases if cursor <= |tar| then |tar| - cursor else 0
  {
    if cursor + BLOCK <= |tar| {
      ReadShifts(before, tar, cursor, header);
      var reading := Read(tar, cursor, header);
      if reading.Skip? {
        ReadingShifts(before, tar, cursor + BLOCK + Padded(reading.size), header);
      }
    }
  }

  /** One laid-out entry is either the manifest or skipped whole. */
  lemma ReadOne(blocks: seq<byte>, rest: seq<byte>, content: seq<byte>, header: Block -> Header)
    requires |blocks| == BLOCK + Padded(|content|) && blocks[BLOCK..BLOCK + |content|] == content
    requires header(blocks[..BLOCK]).Entry? && header(blocks[..BLOCK]).size == |content|
    ensures ReadFrom(blocks + rest, 0, header) ==
            if header(blocks[..BLOCK]).isManifest then Some(content) else ReadFrom(rest, 0, header)
  {
    var tar := blocks + rest;
    assert tar[0..BLOCK] == blocks[..BLOCK];
    assert tar[BLOCK..BLOCK + |content|] == content;
    ReadingShifts(blocks, rest, 0, header);
  }

  lemma ReadOneEntry(e: TarEntry, rest: seq<byte>)
    requires WellFormed(e)
    ensures ManifestIn(EntryBlocks(e) + rest) == if HoldsManifest(e) then Some(e.content) else ManifestIn(rest)
  {
    HeaderReadsBack(e);
    NameDecides(e.prefix, e.name);
    EntryLayout(e);
    ReadOne(EntryBlocks(e), rest, e.content, ReadHeader);
  }

  lemma EntryLayout(e: TarEntry)
    requires WellFormed(e)
    ensures var blocks := EntryBlocks(e);
            && |blocks| == BLOCK + Padded(|e.content|)
            && blocks[..BLOCK] == HeaderBlock(e) && blocks[BLOCK..BLOCK + |e.content|] == e.content
  {
  }

  /** The reader inverts the writer, whatever follows the end-of-archive blocks. */
  lemma {:induction false} ReaderInvertsWriter(entries: seq<TarEntry>, trailing: seq<byte>)
    requires AllWellFormed(entries)
    ensures ManifestIn(Archive(entries) + trailing) == FirstManifest(entries)
  {
    if entries == [] {
      EndStops(Archive(entries) + trailing);
    } else {
      var rest := Archive(entries[1..]);
      assert Archive(entries) + trailing == EntryBlocks(entries[0]) + (rest + trailing);
      ReadOneEntry(entries[0], rest + trailing);
      ReaderInvertsWriter(entries[1..], trailing);
    }
  }

  lemma EndStops(tar: seq<byte>)
    requires |tar| >= BLOCK && forall i :: 0 <= i < BLOCK ==> tar[i] == 0
    ensures ManifestIn(tar) == None
  {
    assert IsZeroBlock(tar[0..BLOCK]);
  }

  /** A published archive yields its first manifest, gzipped (it then starts with 31, 139) or not. */
  lemma PublishedManifest(payload: seq<byte>, entries: seq<TarEntry>, trailing: seq<byte>,
                          gunzip: seq<byte> -> Option<seq<byte>>)
    requires AllWellFormed(entries)
    requires var unzipped := if |payload| >= 2 && payload[0] == 31 && payload[1] == 139 then gunzip(payload) else None;
             (if unzipped.Some? then unzipped.value else payload) == Archive(entries) + trailing
    ensures ManifestIn(DecodeTarPayload(payload, gunzip)) == FirstManifest(entries)
  {
    ReaderInvertsWriter(entries, trailing);
  }

  /** An entry whose content is cut short ends the search, manifest or not. */
  lemma CutShortStops(e: TarEntry, kept: nat)
    requires WellFormed(e) && kept < |e.content|
    ensures ManifestIn(HeaderBlock(e) + e.content[..kept]) == None
  {
    HeaderReadsBack(e);
    assert (HeaderBlock(e) + e.content[..kept])[0..BLOCK] == HeaderBlock(e);
  }
}
