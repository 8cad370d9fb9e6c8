/** The save file: a header, the slot's info, and the slot's data, which may be compressed. */
module SaveFiles {
  import opened Engine
  import opened Actors
  import opened Codec
  import opened Archives

  const FILE_TYPE_TAG := 1
  const INITIAL_VERSION := 1
  const ADDED_CUSTOM_VERSIONS := 2

  /** Compression as the engine offers it; decompression can fail. */
  datatype Zip = Zip(compress: Blob -> Blob, decompress: Blob -> Option<Blob>)

  /** Decompression undoes compression. */
  ghost predicate Inverts(zip: Zip) {
    forall b :: zip.decompress(zip.compress(b)) == Some(b)
  }

  datatype File = File(
    fileTypeTag: int, fileVersion: int, packageVersion: int, engineVersion: string,
    customVersionFormat: int, customVersions: Blob,
    infoClassName: string, infoBytes: Blob,
    dataClassName: string, isDataCompressed: bool, dataBytes: Blob)

  // Writing

  function EncodeHeader(f: File): seq<Word> {
    [NumberWord(f.fileTypeTag), NumberWord(f.fileVersion), NumberWord(f.packageVersion), TextWord(f.engineVersion)]
    + ([NumberWord(f.customVersionFormat)] + EncodeBlob(f.customVersions))
  }

  function EncodeInfo(f: File): seq<Word> {
    [TextWord(f.infoClassName)] + (EncodeBlob(f.infoBytes) + [TextWord(f.dataClassName)])
  }

  function EncodeData(f: File, zip: Zip, compressed: bool): seq<Word> {
    if f.dataClassName == "" then []
    else [BoolWord(compressed)]
         + (if compressed then EncodeBlob(zip.compress(EncodeBlob(f.dataBytes))) else EncodeBlob(f.dataBytes))
  }

  function EncodeFile(f: File, zip: Zip, compressed: bool): seq<Word> {
    EncodeHeader(f) + (EncodeInfo(f) + EncodeData(f, zip, compressed))
  }

  // Reading, over a file with default fields

  function DecodeCustomVersions(f: File, ws: seq<Word>): Read<File> {
    if f.fileVersion < ADDED_CUSTOM_VERSIONS then Got(f, ws)
    else if ws == [] || !ws[0].NumberWord? then Fail
    else match DecodeBlob(ws[1..])
         case Fail => Fail
         case Got(versions, rest) => Got(f.(customVersionFormat := ws[0].number, customVersions := versions), rest)
  }

  /** Everything up to the custom versions; only for a file with the right tag. */
  function DecodeVersions(f: File, ws: seq<Word>): Read<File> {
    if |ws| < 3 || !ws[0].NumberWord? || !ws[1].NumberWord? || !ws[2].TextWord? then Fail
    else DecodeCustomVersions(
           f.(fileVersion := ws[0].number, packageVersion := ws[1].number, engineVersion := ws[2].text), ws[3..])
  }

  function DecodeInfo(f: File, ws: seq<Word>): Read<File> {
    if ws == [] || !ws[0].TextWord? then Fail
    else match DecodeBlob(ws[1..])
         case Fail => Fail
         case Got(info, rest) =>
           if rest == [] || !rest[0].TextWord? then Fail
           else Got(f.(infoClassName := ws[0].text, infoBytes := info, dataClassName := rest[0].text), rest[1..])
  }

  /** The data bytes inside decompressed bytes; none if decompression failed. */
  function Unpacked(zip: Zip, packed: Blob, default: Blob): Blob {
    match zip.decompress(packed)
    case None => default
    case Some(words) => match DecodeBlob(words)
                        case Fail => default
                        case Got(data, _) => data
  }

  function DecodeData(f: File, ws: seq<Word>, zip: Zip): Read<File> {
    if f.dataClassName == "" then Got(f, ws)
    else if ws == [] || !ws[0].BoolWord? then Fail
    else match DecodeBlob(ws[1..])
         case Fail => Fail
         case Got(bytes, rest) =>
           Got(f.(isDataCompressed := ws[0].flag, dataBytes := if ws[0].flag then Unpacked(zip, bytes, f.dataBytes)
                  else bytes), rest)
  }

  /** A file with a foreign tag is taken for an old one, of which nothing more is read. */
  function DecodeFile(f: File, ws: seq<Word>, zip: Zip, skipData: bool): Read<File> {
    if ws == [] || !ws[0].NumberWord? then Fail
    else if ws[0].number != FILE_TYPE_TAG then Got(f.(fileTypeTag := ws[0].number, fileVersion := INITIAL_VERSION), ws)
    else match DecodeVersions(f.(fileTypeTag := FILE_TYPE_TAG), ws[1..])
         case Fail => Fail
         case Got(versions, rest) =>
           match DecodeInfo(versions, rest)
           case Fail => Fail
           case Got(info, rest) => if skipData then Got(info, rest) else DecodeData(info, rest, zip)
  }

  /** What is left of a file after the trip: without a data class, its data is not written. */
  function KeptFile(f: File, default: File, compressed: bool): File {
    if f.dataClassName == "" then f.(isDataCompressed := default.isDataCompressed, dataBytes := default.dataBytes)
    else f.(isDataCompressed := compressed)
  }

  lemma InfoRoundTrip(f: File, into: File, s: seq<Word>)
    ensures DecodeInfo(into, EncodeInfo(f) + s)
            == Got(into.(infoClassName := f.infoClassName, infoBytes := f.infoBytes, dataClassName := f.dataClassName),
                   s)
  {
    var ws := EncodeInfo(f) + s;
    var tail := [TextWord(f.dataClassName)] + s;
    assert ws[1..] == EncodeBlob(f.infoBytes) + tail;
    BlobRoundTrip(f.infoBytes, tail);
    assert tail[1..] == s;
  }

  lemma DataRoundTrip(f: File, into: File, s: seq<Word>, zip: Zip, compressed: bool)
    requires Inverts(zip) && into.dataClassName == f.dataClassName
    ensures DecodeData(into, EncodeData(f, zip, compressed) + s, zip)
            == Got(if f.dataClassName == "" then into
                   else into.(isDataCompressed := compressed, dataBytes := f.dataBytes), s)
  {
    var ws := EncodeData(f, zip, compressed) + s;
    if f.dataClassName == "" {
      assert ws == s;
    } else {
      var packed := zip.compress(EncodeBlob(f.dataBytes));
      assert ws[1..] == EncodeBlob(if compressed then packed else f.dataBytes) + s;
      BlobRoundTrip(if compressed then packed else f.dataBytes, s);
      BlobRoundTrip(f.dataBytes, []);
      assert EncodeBlob(f.dataBytes) + [] == EncodeBlob(f.dataBytes);
    }
  }

  /** The header of a file written under its own tag and a version that has custom versions is read back. */
  lemma HeaderRoundTrip(f: File, into: File, s: seq<Word>)
    ensures var ws := EncodeHeader(f) + s;
            && ws[0] == NumberWord(f.fileTypeTag)
            && DecodeVersions(into, ws[1..])
               == if f.fileVersion < ADDED_CUSTOM_VERSIONS
                  then Got(into.(fileVersion := f.fileVersion, packageVersion := f.packageVersion,
                                 engineVersion := f.engineVersion),
                           [NumberWord(f.customVersionFormat)] + (EncodeBlob(f.customVersions) + s))
                  else Got(into.(fileVersion := f.fileVersion, packageVersion := f.packageVersion,
                                 engineVersion := f.engineVersion,
                                 customVersionFormat := f.customVersionFormat, customVersions := f.customVersions), s)
  {
    var ws := EncodeHeader(f) + s;
    var custom := [NumberWord(f.customVersionFormat)] + (EncodeBlob(f.customVersions) + s);
    assert ws[1..][3..] == custom;
    assert custom[1..] == EncodeBlob(f.customVersions) + s;
    BlobRoundTrip(f.customVersions, s);
  }

  /**
   * A file is read back in full, and nothing after it is consumed, exactly when it carries the current tag and a
   * version from the one on that introduced the custom versions the writer always writes.
   */
  lemma FileRoundTrip(f: File, default: File, s: seq<Word>, zip: Zip, compressed: bool)
    requires Inverts(zip)
    ensures DecodeFile(default, EncodeFile(f, zip, compressed) + s, zip, false)
            == Got(KeptFile(f, default, compressed), s)
            <==> f.fileTypeTag == FILE_TYPE_TAG && f.fileVersion >= ADDED_CUSTOM_VERSIONS
  {
    hide EncodeInfo, EncodeData, DecodeData;
    var data := EncodeData(f, zip, compressed) + s;
    var info := EncodeInfo(f) + data;
    var ws := EncodeFile(f, zip, compressed) + s;
    assert ws == EncodeHeader(f) + info;
    var tagged := default.(fileTypeTag := FILE_TYPE_TAG);
    HeaderRoundTrip(f, tagged, info);
    if f.fileTypeTag != FILE_TYPE_TAG {
      assert |ws| > |s|;
    } else if f.fileVersion >= ADDED_CUSTOM_VERSIONS {
      var versions :=
        tagged.(fileVersion := f.fileVersion, packageVersion := f.packageVersion, engineVersion := f.engineVersion,
                              customVersionFormat := f.customVersionFormat, customVersions := f.customVersions);
      InfoRoundTrip(f, versions, data);
      DataRoundTrip(
        f, versions.(infoClassName := f.infoClassName, infoBytes := f.infoBytes, dataClassName := f.dataClassName),
        s, zip, compressed);
    }
  }

  /** A file under another tag is taken for one from before tags: it is read without failing, but nothing of it is. */
  lemma OldFileIsTakenAsSuch(default: File, ws: seq<Word>, zip: Zip, skipData: bool)
    requires ws != [] && ws[0].NumberWord? && ws[0].number != 1
    ensures DecodeFile(default, ws, zip, skipData)
            == Got(default.(fileTypeTag := ws[0].number, fileVersion := INITIAL_VERSION), ws)
  {
  }

  /** Data that cannot be decompressed does not fail the read either: there is none then. */
  lemma BadDataIsSkipped(f: File, bytes: Blob, s: seq<Word>, zip: Zip)
    requires f.dataClassName != "" && zip.decompress(bytes).None?
    ensures DecodeData(f, [BoolWord(true)] + (EncodeBlob(bytes) + s), zip) == Got(f.(isDataCompressed := true), s)
  {
    var ws := [BoolWord(true)] + (EncodeBlob(bytes) + s);
    assert ws[1..] == EncodeBlob(bytes) + s;
    BlobRoundTrip(bytes, s);
  }

  lemma BlobLeavesASuffix(ws: seq<Word>)
    ensures var read := DecodeBlob(ws); read.Got? ==> exists n :: 0 <= n <= |ws| && read.rest == ws[n..]
  {
  }

  lemma DataLeavesASuffix(f: File, ws: seq<Word>, zip: Zip)
    ensures var read := DecodeData(f, ws, zip); read.Got? ==> exists n :: 0 <= n <= |ws| && read.rest == ws[n..]
  {
    if f.dataClassName == "" {
      assert ws == ws[0..];
    } else if ws != [] {
      BlobLeavesASuffix(ws[1..]);
      var bytes := DecodeBlob(ws[1..]);
      if bytes.Got? {
        var n :| 0 <= n <= |ws[1..]| && bytes.rest == ws[1..][n..];
        assert ws[1..][n..] == ws[n + 1..];
      }
    }
  }

  /**
   * Whatever the words: where the full read succeeds, so does the read that skips the data, with the same header, info
   * and data class, and having consumed no more.
   */
  lemma InfoOnlyAgrees(f: File, ws: seq<Word>, zip: Zip)
    ensures var full, info := DecodeFile(f, ws, zip, false), DecodeFile(f, ws, zip, true);
            full.Got? ==>
              && info.Got?
              && info.value == full.value.(isDataCompressed := f.isDataCompressed, dataBytes := f.dataBytes)
              && exists n :: 0 <= n <= |info.rest| && full.rest == info.rest[n..]
  {
    var full, info := DecodeFile(f, ws, zip, false), DecodeFile(f, ws, zip, true);
    if full.Got? && ws[0].number != FILE_TYPE_TAG {
      assert full.rest == info.rest[0..];
    } else if full.Got? {
      DataLeavesASuffix(info.value, info.rest, zip);
    }
  }

  class SaveFile {
    var fileTypeTag: int
    var saveGameFileVersion: int
    var packageFileUEVersion: int
    var savedEngineVersion: string
    var customVersionFormat: int
    var customVersions: Blob
    var infoClassName: string
    var infoBytes: Blob
    var dataClassName: string
    var isDataCompressed: bool
    var dataBytes: Blob

    ghost function View(): File
      reads this
    {
      File(fileTypeTag, saveGameFileVersion, packageFileUEVersion, savedEngineVersion, customVersionFormat,
           customVersions,
           infoClassName, infoBytes, dataClassName, isDataCompressed, dataBytes)
    }

    /** As a new file: of the running engine's versions, and without contents. */
    constructor (default: File)
      ensures View() == default
    {
      fileTypeTag, saveGameFileVersion := default.fileTypeTag, default.fileVersion;
      packageFileUEVersion, savedEngineVersion := default.packageVersion, default.engineVersion;
      customVersionFormat, customVersions := default.customVersionFormat, default.customVersions;
      infoClassName, infoBytes := default.infoClassName, default.infoBytes;
      dataClassName, isDataCompressed, dataBytes := default.dataClassName, default.isDataCompressed, default.dataBytes;
    }

    method Empty(default: File)
      modifies this
      ensures View() == default
    {
      fileTypeTag, saveGameFileVersion := default.fileTypeTag, default.fileVersion;
      packageFileUEVersion, savedEngineVersion := default.packageVersion, default.engineVersion;
      customVersionFormat, customVersions := default.customVersionFormat, default.customVersions;
      infoClassName, infoBytes := default.infoClassName, default.infoBytes;
      dataClassName, isDataCompressed, dataBytes := default.dataClassName, default.isDataCompressed, default.dataBytes;
    }

    method WriteHeader(ar: Archive)
      requires ar.Good() && !ar.loading
      modifies ar
      ensures ar.Wrote(old(ar.words), old(ar.position), EncodeHeader(View()))
    {
      ghost var words := ar.words;
      var _ := ar.SerializeWord(NumberWord(fileTypeTag));
      var _ := ar.SerializeWord(NumberWord(saveGameFileVersion));
      var _ := ar.SerializeWord(NumberWord(packageFileUEVersion));
      var _ := ar.SerializeWord(TextWord(savedEngineVersion));
      var _ := ar.SerializeWord(NumberWord(customVersionFormat));
      var _ := ar.SerializeBlob(customVersions);
      assert ar.words == words + EncodeHeader(View());
    }

    method WriteInfo(ar: Archive)
      requires ar.Good() && !ar.loading
      modifies ar
      ensures ar.Wrote(old(ar.words), old(ar.position), EncodeInfo(View()))
    {
      ghost var words := ar.words;
      var _ := ar.SerializeWord(TextWord(infoClassName));
      var _ := ar.SerializeBlob(infoBytes);
      var _ := ar.SerializeWord(TextWord(dataClassName));
      assert ar.words == words + EncodeInfo(View());
    }

    method WriteData(ar: Archive, zip: Zip)
      requires ar.Good() && !ar.loading
      modifies ar
      ensures ar.Wrote(old(ar.words), old(ar.position), EncodeData(View(), zip, isDataCompressed))
    {
      ghost var words := ar.words;
      if dataClassName != "" {
        var bytes := dataBytes;
        var _ := ar.SerializeWord(BoolWord(isDataCompressed));
        if isDataCompressed {
          var compressor := new Archive(false, [], ar.resolve);
          var _ := compressor.SerializeBlob(dataBytes);
          bytes := zip.compress(compressor.words);
          assert compressor.words == EncodeBlob(dataBytes);
        }
        var _ := ar.SerializeBlob(bytes);
        InTwoSteps(words, [BoolWord(isDataCompressed)], EncodeBlob(bytes));
      }
      assert ar.words == words + EncodeData(View(), zip, isDataCompressed);
    }

    /** FSaveFile::Write */
    method Write(ar: Archive, zip: Zip, compressData: bool)
      requires ar.Good() && !ar.loading && ar.words == []
      modifies this`isDataCompressed, ar
      ensures ar.words == EncodeFile(View(), zip, compressData) && !ar.error
      ensures View() == old(View()).(isDataCompressed := compressData)
    {
      isDataCompressed := compressData;
      WriteHeader(ar);
      WriteInfo(ar);
      WriteData(ar, zip);
      assert [] + EncodeHeader(View()) == EncodeHeader(View());
      InTwoSteps(EncodeHeader(View()), EncodeInfo(View()), EncodeData(View(), zip, compressData));
    }

    method ReadCustomVersions(ar: Archive)
      requires ar.Good() && ar.loading
      modifies this`customVersionFormat, this`customVersions, ar
      ensures ar.position <= |ar.words| && ar.words == old(ar.words)
      ensures Outcome(DecodeCustomVersions(old(View()), old(ar.Rest())), View(), ar.error, ar.Rest())
    {
      if saveGameFileVersion >= ADDED_CUSTOM_VERSIONS {
        var format := ar.SerializeWord(NumberWord(customVersionFormat));
        if ar.error {
          return;
        }
        var versions := ar.SerializeBlob(customVersions);
        if !ar.error {
          customVersionFormat, customVersions := format.number, versions;
        }
      }
    }

    method ReadVersions(ar: Archive)
      requires ar.Good() && ar.loading
      modifies this, ar
      ensures ar.position <= |ar.words| && ar.words == old(ar.words)
      ensures Outcome(DecodeVersions(old(View()), old(ar.Rest())), View(), ar.error, ar.Rest())
    {
      hide DecodeCustomVersions, DecodeBlob, Archive.Wrote;
      var fileVersion := ar.SerializeWord(NumberWord(saveGameFileVersion));
      if ar.error {
        return;
      }
      var packageVersion := ar.SerializeWord(NumberWord(packageFileUEVersion));
      if ar.error {
        return;
      }
      var engineVersion := ar.SerializeWord(TextWord(savedEngineVersion));
      if ar.error {
        return;
      }
      assert ar.Rest() == old(ar.Rest())[3..];
      saveGameFileVersion, packageFileUEVersion, savedEngineVersion := fileVersion.number, packageVersion.number,
        engineVersion.text;
      ReadCustomVersions(ar);
    }

    method ReadInfo(ar: Archive)
      requires ar.Good() && ar.loading
      modifies this`infoClassName, this`infoBytes, this`dataClassName, ar
      ensures ar.position <= |ar.words| && ar.words == old(ar.words)
      ensures Outcome(DecodeInfo(old(View()), old(ar.Rest())), View(), ar.error, ar.Rest())
    {
      hide DecodeBlob, EncodeBlob;
      var infoName := ar.SerializeWord(TextWord(infoClassName));
      infoClassName := infoName.text;
      if ar.error {
        return;
      }
      infoBytes := ar.SerializeBlob(infoBytes);
      if ar.error {
        return;
      }
      var dataName := ar.SerializeWord(TextWord(dataClassName));
      dataClassName := dataName.text;
    }

    /** Decompresses bytes and reads the data bytes in them; if that fails the data bytes stay as they are. */
    method Unpack(packed: Blob, zip: Zip, resolve: Resolver)
      modifies this`dataBytes
      ensures dataBytes == Unpacked(zip, packed, old(dataBytes))
    {
      var words := zip.decompress(packed);
      if words.Some? {
        var decompressor := new Archive(true, words.value, resolve);
        assert decompressor.Rest() == words.value;
        var data := decompressor.SerializeBlob(dataBytes);
        if !decompressor.error {
          dataBytes := data;
        }
      }
    }

    method ReadData(ar: Archive, zip: Zip)
      requires ar.Good() && ar.loading
      modifies this`isDataCompressed, this`dataBytes, ar
      ensures ar.position <= |ar.words| && ar.words == old(ar.words)
      ensures Outcome(DecodeData(old(View()), old(ar.Rest()), zip), View(), ar.error, ar.Rest())
    {
      if dataClassName == "" {
        return;
      }
      var compressed := ar.SerializeWord(BoolWord(isDataCompressed));
      if ar.error {
        return;
      }
      var bytes := ar.SerializeBlob([]);
      if ar.error {
        return;
      }
      isDataCompressed := compressed.flag;
      if compressed.flag {
        Unpack(bytes, zip, ar.resolve);
      } else {
        dataBytes := bytes;
      }
    }

    /** FSaveFile::Read */
    method Read(ar: Archive, zip: Zip, skipData: bool, default: File)
      requires ar.Good() && ar.loading && ar.position == 0
      modifies this, ar
      ensures ar.position <= |ar.words| && ar.words == old(ar.words)
      ensures Outcome(DecodeFile(default, old(ar.Rest()), zip, skipData), View(), ar.error, ar.Rest())
    {
      Empty(default);
      var tag := ar.SerializeWord(NumberWord(fileTypeTag));
      fileTypeTag := tag.number;
      if ar.error {
        return;
      }
      if fileTypeTag != FILE_TYPE_TAG {
        // a file from before tags: it is read again from its start, as of the first version
        ar.Rewind();
        saveGameFileVersion := INITIAL_VERSION;
        return;
      }
      ReadVersions(ar);
      if ar.error {
        return;
      }
      ReadInfo(ar);
      if ar.error || skipData {
        return;
      }
      ReadData(ar, zip);
    }
  }

  /** FFileAdapter::SaveFile: the slot goes into the data bytes, and the file to disk. */
  method SaveSlot(d: Slot, info: Blob, infoClass: string, dataClass: string, zip: Zip, compressed: bool,
                  default: File, resolve: Resolver)
    returns (words: seq<Word>, ghost written: File)
    ensures written == default.(infoClassName := infoClass, infoBytes := info, dataClassName := dataClass,
                                isDataCompressed := compressed, dataBytes := EncodeSlot(d))
    ensures words == EncodeFile(written, zip, compressed)
  {
    hide EncodeSlot, EncodeFile;
    var data := new Archive(false, [], resolve);
    var _ := data.SerializeSlot(d);
    assert data.words == EncodeSlot(d);
    var file := new SaveFile(default);
    file.infoClassName, file.infoBytes, file.dataClassName, file.dataBytes := infoClass, info, dataClass, data.words;
    var writer := new Archive(false, [], resolve);
    file.Write(writer, zip, compressed);
    words, written := writer.words, file.View();
  }

  /** FFileAdapter::LoadFile: the file is read in full, and the slot from its data bytes. */
  method LoadSlot(words: seq<Word>, zip: Zip, default: File, resolve: Resolver, ghost read: File, ghost rest: seq<Word>,
                  ghost d: Slot)
    returns (back: Slot, info: Blob)
    requires DecodeFile(default, words, zip, false) == Got(read, rest)
    requires DecodeSlot(EMPTY_SLOT, read.dataBytes, resolve) == Got(d, [])
    ensures back == d && info == read.infoBytes
  {
    var reader := new Archive(true, words, resolve);
    assert reader.Rest() == words;
    var copy := new SaveFile(default);
    copy.Read(reader, zip, false, default);
    info := copy.infoBytes;
    var decoder := new Archive(true, copy.dataBytes, resolve);
    assert decoder.Rest() == read.dataBytes;
    back := decoder.SerializeSlot(EMPTY_SLOT);
  }

  /**
   * A slot's data, written into a save file and read back, is the slot the records keep: with or without compression,
   * and whatever follows the file.
   */
  method SaveAndLoad(d: Slot, info: Blob, infoClass: string, dataClass: string, zip: Zip, compressed: bool,
                     default: File, resolve: Resolver, suffix: seq<Word>)
    returns (back: Slot, backInfo: Blob)
    requires Inverts(zip) && GoodSlot(d, resolve) && dataClass != ""
    requires default.fileTypeTag == FILE_TYPE_TAG && default.fileVersion >= ADDED_CUSTOM_VERSIONS
    ensures back == KeptSlot(d) && backInfo == info
  {
    var words;
    ghost var written;
    words, written := SaveSlot(d, info, infoClass, dataClass, zip, compressed, default, resolve);
    FileRoundTrip(written, default, suffix, zip, compressed);
    SlotRoundTrip(d, [], resolve);
    assert EncodeSlot(d) + [] == EncodeSlot(d);
    back, backInfo :=
      LoadSlot(words + suffix, zip, default, resolve, KeptFile(written, default, compressed), suffix, KeptSlot(d));
  }
}
