/** The AppImage assembly pipeline of `AppImagePrimer`: the runtime ("carrier")
    is copied to the bundle file, the squashfs payload is appended, reserved ELF
    sections of the carrier are patched in place with the update information and
    with the GPG signature of the bundle's SHA-256 digest, and the owner-execute
    bit is set.

    The filesystem is the object's state: the cached runtime, the bundle file and
    its mode, and the payload file. External tools and libraries (urlretrieve,
    mksquashfs, lief, hashlib, GnuPG, zsyncmake) are the oracles of a `Toolchain`. */
module Primer {
  import opened Wrappers
  import opened Bytes
  import opened Encoding

  type Digest16 = s: seq<byte> | |s| == 16 witness seq(16, _ => 0)
  type Digest32 = s: seq<byte> | |s| == 32 witness seq(32, _ => 0)

  /** File mode bits as returned by `os.stat(...).st_mode`. */
  type Mode = bv32

  /** `stat.S_IEXEC`, the owner-execute bit 0o100. */
  const S_IEXEC: Mode := 0x40

  /** `_generate_checksums` reads the bundle in chunks of 2**10 bytes. */
  const ChunkSize: nat := 1024

  const UpdateInfoSection := ".upd_info"
  const SignatureSection := ".sha256_sig"
  const SignatureKeySection := ".sig_key"

  /** A section of the carrier's ELF section table, as lief reports it. */
  datatype Section = Section(fileOffset: nat, size: nat)

  type SectionTable = map<string, Section>

  datatype PrimeError =
    | RuntimeDownloadFailed(url: string)   // urlretrieve raised
    | SquashfsFailed                       // mksquashfs missing or exited non-zero
    | PayloadMissing                       // open(payload_path, "rb") raised
    | PayloadCopyFailed                    // copyfileobj raised part-way
    | MissingSection(name: string)         // get_section returned None: `.file_offset` raises
    | ZsyncmakeFailed                      // zsyncmake missing or exited non-zero

  /** What `request.urlretrieve(url, carrier_path)` leaves behind. It opens the
      target for writing only once the connection is made, so a failure either
      comes before anything is written or leaves the bytes received so far. */
  datatype Download =
    | Fetched(bytes: seq<byte>)           // the whole runtime is at carrier_path
    | FailedBeforeWriting                 // raised before carrier_path was opened
    | FailedPartWay(left: seq<byte>)      // raised after writing `left` to carrier_path

  /** The external tools and libraries the pipeline calls, as total functions. */
  datatype Toolchain = Toolchain(
    download: string -> Download,                 // request.urlretrieve(url, carrier_path)
    squashfs: Option<seq<byte>>,                  // the image mksquashfs makes of the AppDir, or None when it fails
    sections: seq<byte> -> SectionTable,          // lief.parse(carrier) and its section table
    md5: seq<byte> -> Digest16,                   // hashlib.md5 of everything fed to it
    sha256: seq<byte> -> Digest32,                // hashlib.sha256 of everything fed to it
    gpgSign: (string, string) -> seq<byte>,       // gpg.sign(message, keyid=key, detach=True).data
    gpgExportKeys: string -> string,              // gpg.export_keys(keyids=[key])
    zsyncmakeOk: bool)                            // whether zsyncmake succeeds

  /** Python truthiness of an optional recipe string: absent and "" are both false. */
  predicate Configured(setting: Option<string>) {
    setting.Some? && setting.value != ""
  }

  const RuntimeUrlPrefix := "https://github.com/AppImage/AppImageKit/releases/download/continuous/runtime-"

  function RuntimeUrl(arch: string): string { RuntimeUrlPrefix + arch }

  /** `_resolve_appimage_file_name`: a configured `file_name` verbatim, otherwise
      `{name}-{version}-{arch}.AppImage`. */
  function ResolveAppImageFileName(name: string, version: string, arch: string, fileName: Option<string>): (r: string)
    ensures Configured(fileName) ==> r == fileName.value
    ensures !Configured(fileName) ==> |r| == |name| + |version| + |arch| + 11
    ensures !Configured(fileName) ==> r[..|name|] == name && r[|r| - 9..] == ".AppImage"
    ensures !Configured(fileName) ==> r[|name|..|r| - 9] == "-" + version + "-" + arch
  {
    if Configured(fileName) then fileName.value
    else name + "-" + version + "-" + arch + ".AppImage"
  }

  /** The image after one patch stage, and whether the stage completed. A failed
      stage may already have written part of what it patches. */
  datatype Patched = Patched(image: seq<byte>, outcome: Outcome<PrimeError>)

  /** `_add_appimage_update_information`: with update information configured,
      its UTF-8 bytes are written at the file offset of `.upd_info`. */
  function WithUpdateInformation(image: seq<byte>, table: SectionTable, updateInformation: Option<string>): Patched
  {
    if !Configured(updateInformation) then Patched(image, Pass)
    else if UpdateInfoSection !in table then Patched(image, Fail(MissingSection(UpdateInfoSection)))
    else Patched(WriteAt(image, table[UpdateInfoSection].fileOffset, Utf8Encode(updateInformation.value)), Pass)
  }

  /** The message GnuPG signs: the lowercase hex text of the digest, `bundle_sha256.hex()`. */
  function SignedMessage(digest: Digest32): (m: string)
    ensures |m| == 64
    ensures forall i :: 0 <= i < |m| ==> IsLowerHexDigit(m[i])
    ensures HexDecode(m) == Some(digest)
  {
    HexRoundTrip(digest);
    HexEncode(digest)
  }

  /** `_sign_bundle_sha256_digest`: with a signing key configured, the detached
      signature of the digest's hex text goes to `.sha256_sig`, then the exported
      public key, as UTF-8, goes to `.sig_key`. */
  function WithSignature(image: seq<byte>, table: SectionTable, signKey: Option<string>,
                         digest: Digest32, tc: Toolchain): Patched
  {
    if !Configured(signKey) then Patched(image, Pass)
    else
      var signature := tc.gpgSign(SignedMessage(digest), signKey.value);
      if SignatureSection !in table then Patched(image, Fail(MissingSection(SignatureSection)))
      else
        var signed := WriteAt(image, table[SignatureSection].fileOffset, signature);
        var key := tc.gpgExportKeys(signKey.value);
        if SignatureKeySection !in table then Patched(signed, Fail(MissingSection(SignatureKeySection)))
        else Patched(WriteAt(signed, table[SignatureKeySection].fileOffset, Utf8Encode(key)), Pass)
  }

  /** `mode | stat.S_IEXEC`. */
  function WithOwnerExecute(mode: Mode): Mode
  {
    mode | S_IEXEC
  }

  lemma OwnerExecuteSet(mode: Mode) ensures WithOwnerExecute(mode) & S_IEXEC == S_IEXEC {}
  lemma OwnerExecuteKeepsBits(mode: Mode) ensures WithOwnerExecute(mode) & mode == mode {}
  lemma OwnerExecuteTouchesNoOtherBit(mode: Mode) ensures WithOwnerExecute(mode) & !S_IEXEC == mode & !S_IEXEC {}

  /** Finalising sets the owner-execute bit, keeps every bit already set and
      changes no other bit. */
  lemma WithOwnerExecuteBits(mode: Mode)
    ensures WithOwnerExecute(mode) & S_IEXEC == S_IEXEC
    ensures WithOwnerExecute(mode) & mode == mode
    ensures WithOwnerExecute(mode) & !S_IEXEC == mode & !S_IEXEC
  {
    OwnerExecuteSet(mode);
    OwnerExecuteKeepsBits(mode);
    OwnerExecuteTouchesNoOtherBit(mode);
  }

  /** The bundle the whole pipeline produces from a carrier and a payload: the
      concatenation, patched with the update information, then signed over the
      SHA-256 digest of that patched image. */
  function ExpectedBundle(carrier: seq<byte>, payload: seq<byte>, updateInformation: Option<string>,
                          signKey: Option<string>, tc: Toolchain): seq<byte>
  {
    var table := tc.sections(carrier);
    var updated := WithUpdateInformation(carrier + payload, table, updateInformation).image;
    WithSignature(updated, table, signKey, tc.sha256(updated), tc).image
  }

  // ------------------------------------------------------ patch windows

  /** The section lies inside the file. */
  predicate Within(sec: Section, file: seq<byte>) {
    sec.fileOffset + sec.size <= |file|
  }

  /** The data fits the section; `_patch_appimage` does not check this. */
  predicate Fits(sec: Section, data: seq<byte>) {
    |data| <= sec.size
  }

  predicate Outside(i: int, sec: Section) {
    !(sec.fileOffset <= i < sec.fileOffset + sec.size)
  }

  predicate Disjoint(a: Section, b: Section) {
    a.fileOffset + a.size <= b.fileOffset || b.fileOffset + b.size <= a.fileOffset
  }

  /** A patch that fits its section writes its data at the section's offset and
      leaves the length and every byte outside the section as it was. */
  lemma PatchInsideSection(file: seq<byte>, sec: Section, data: seq<byte>)
    requires Within(sec, file) && Fits(sec, data)
    ensures |WriteAt(file, sec.fileOffset, data)| == |file|
    ensures WriteAt(file, sec.fileOffset, data)[sec.fileOffset..sec.fileOffset + |data|] == data
    ensures forall i :: 0 <= i < |file| && Outside(i, sec) ==> WriteAt(file, sec.fileOffset, data)[i] == file[i]
  {
    WriteAtWindow(file, sec.fileOffset, data);
  }

  /** Without the fit check, data longer than its section overwrites the byte
      that follows the section. */
  lemma PatchOverflowsSection(file: seq<byte>, sec: Section, data: seq<byte>)
    requires |data| > sec.size && sec.fileOffset + |data| <= |file|
    ensures WriteAt(file, sec.fileOffset, data)[sec.fileOffset + sec.size] == data[sec.size]
  {
    WriteAtWindow(file, sec.fileOffset, data);
    assert WriteAt(file, sec.fileOffset, data)[sec.fileOffset..sec.fileOffset + |data|][sec.size]
        == WriteAt(file, sec.fileOffset, data)[sec.fileOffset + sec.size];
  }

  /** Section offsets come from the carrier but are applied to the bundle. That is
      sound because the bundle starts with the carrier: a section inside the
      carrier covers carrier bytes in the bundle, and patching it there is
      patching the carrier and leaving the payload after it untouched. */
  lemma PatchCarrierSection(carrier: seq<byte>, payload: seq<byte>, sec: Section, data: seq<byte>)
    requires Within(sec, carrier) && Fits(sec, data)
    ensures (carrier + payload)[sec.fileOffset..sec.fileOffset + sec.size] == carrier[sec.fileOffset..sec.fileOffset + sec.size]
    ensures WriteAt(carrier + payload, sec.fileOffset, data) == WriteAt(carrier, sec.fileOffset, data) + payload
    ensures |WriteAt(carrier, sec.fileOffset, data)| == |carrier|
  {
    WriteAtPrefix(carrier, payload, sec.fileOffset, data);
    WriteAtWindow(carrier, sec.fileOffset, data);
  }

  /** The update-information example: a carrier of 64 zero bytes whose
      `.upd_info` section is at offset 40 with size 20, and the update information
      "zs", give the bytes of "zs" at [40, 42) and zero everywhere else. */
  lemma UpdateInformationExample()
    ensures var p := WithUpdateInformation(Zeros(64), map[UpdateInfoSection := Section(40, 20)], Some("zs"));
            && p.outcome == Pass
            && |p.image| == 64
            && p.image[40..42] == [0x7A, 0x73]
            && forall i :: 0 <= i < 64 && !(40 <= i < 42) ==> p.image[i] == 0
  {
    var text := "zs";
    assert IsAscii(text);
    Utf8EncodeAscii(text);
    var bytes := [0x7A, 0x73];
    assert Utf8Encode(text) == bytes;
    var image := Zeros(64);
    WriteAtWindow(image, 40, bytes);
  }

  /** With no update information configured the stage writes nothing. */
  lemma NoUpdateInformationNoPatch(image: seq<byte>, table: SectionTable, updateInformation: Option<string>)
    requires !Configured(updateInformation)
    ensures WithUpdateInformation(image, table, updateInformation) == Patched(image, Pass)
  {
  }

  /** With no signing key configured the signing stage leaves the bundle byte for byte as it was. */
  lemma NoSignKeyNoPatch(image: seq<byte>, table: SectionTable, signKey: Option<string>, digest: Digest32, tc: Toolchain)
    requires !Configured(signKey)
    ensures WithSignature(image, table, signKey, digest, tc) == Patched(image, Pass)
  {
  }

  /** With a signing key, two disjoint sections inside the bundle and data that
      fits them, the signature of the digest's hex text ends up in `.sha256_sig`,
      the exported key in `.sig_key`, and every other byte is unchanged. */
  lemma SignedBundleLayout(image: seq<byte>, table: SectionTable, signKey: Option<string>, digest: Digest32, tc: Toolchain)
    requires Configured(signKey)
    requires SignatureSection in table && SignatureKeySection in table
    requires Within(table[SignatureSection], image) && Within(table[SignatureKeySection], image)
    requires Disjoint(table[SignatureSection], table[SignatureKeySection])
    requires Fits(table[SignatureSection], tc.gpgSign(HexEncode(digest), signKey.value))
    requires Fits(table[SignatureKeySection], Utf8Encode(tc.gpgExportKeys(signKey.value)))
    ensures var p := WithSignature(image, table, signKey, digest, tc);
            var sig, key := tc.gpgSign(HexEncode(digest), signKey.value), Utf8Encode(tc.gpgExportKeys(signKey.value));
            var sigAt, keyAt := table[SignatureSection].fileOffset, table[SignatureKeySection].fileOffset;
            && p.outcome == Pass
            && |p.image| == |image|
            && p.image[sigAt..sigAt + |sig|] == sig
            && p.image[keyAt..keyAt + |key|] == key
            && forall i :: 0 <= i < |image| && Outside(i, table[SignatureSection]) && Outside(i, table[SignatureKeySection])
                 ==> p.image[i] == image[i]
  {
    var sigSec, keySec := table[SignatureSection], table[SignatureKeySection];
    var sig, key := tc.gpgSign(HexEncode(digest), signKey.value), Utf8Encode(tc.gpgExportKeys(signKey.value));
    var signed := WriteAt(image, sigSec.fileOffset, sig);
    PatchInsideSection(image, sigSec, sig);
    PatchInsideSection(signed, keySec, key);
    var final := WriteAt(signed, keySec.fileOffset, key);
    assert WithSignature(image, table, signKey, digest, tc).image == final;
    forall j | 0 <= j < |sig| ensures final[sigSec.fileOffset + j] == sig[j] {
      assert Outside(sigSec.fileOffset + j, keySec);
      assert signed[sigSec.fileOffset..sigSec.fileOffset + |sig|][j] == signed[sigSec.fileOffset + j];
    }
    assert final[sigSec.fileOffset..sigSec.fileOffset + |sig|] == sig;
  }

  /** The section table of a runtime the pipeline can patch without damage: every
      section a configured stage writes is present, lies inside the carrier and
      holds what is written there, and the two signing sections do not overlap. */
  ghost predicate PatchableLayout(carrier: seq<byte>, updateInformation: Option<string>, signKey: Option<string>, tc: Toolchain)
  {
    var table := tc.sections(carrier);
    && (Configured(updateInformation) ==>
          && UpdateInfoSection in table && Within(table[UpdateInfoSection], carrier)
          && Fits(table[UpdateInfoSection], Utf8Encode(updateInformation.value)))
    && (Configured(signKey) ==>
          && SignatureSection in table && SignatureKeySection in table
          && Within(table[SignatureSection], carrier) && Within(table[SignatureKeySection], carrier)
          && Disjoint(table[SignatureSection], table[SignatureKeySection])
          && (forall message :: Fits(table[SignatureSection], tc.gpgSign(message, signKey.value)))
          && Fits(table[SignatureKeySection], Utf8Encode(tc.gpgExportKeys(signKey.value))))
  }

  /** Byte `i` of the carrier lies in none of the sections the configured stages write. */
  predicate Unreserved(i: int, table: SectionTable, updateInformation: Option<string>, signKey: Option<string>)
  {
    && (Configured(updateInformation) && UpdateInfoSection in table ==> Outside(i, table[UpdateInfoSection]))
    && (Configured(signKey) && SignatureSection in table ==> Outside(i, table[SignatureSection]))
    && (Configured(signKey) && SignatureKeySection in table ==> Outside(i, table[SignatureKeySection]))
  }

  /** On a patchable runtime the finished bundle is the carrier, patched only
      inside its reserved sections, followed by the payload unchanged: the
      patches never resize the bundle nor reach the payload. */
  lemma ExpectedBundleLayout(carrier: seq<byte>, payload: seq<byte>, updateInformation: Option<string>,
                             signKey: Option<string>, tc: Toolchain)
    requires PatchableLayout(carrier, updateInformation, signKey, tc)
    ensures var bundle := ExpectedBundle(carrier, payload, updateInformation, signKey, tc);
            && |bundle| == |carrier| + |payload|
            && bundle[|carrier|..] == payload
            && forall i :: 0 <= i < |carrier| && Unreserved(i, tc.sections(carrier), updateInformation, signKey)
                 ==> bundle[i] == carrier[i]
  {
    var table := tc.sections(carrier);
    // The carrier part after the update-information stage.
    var head1 := carrier;
    if Configured(updateInformation) {
      var sec := table[UpdateInfoSection];
      head1 := WriteAt(carrier, sec.fileOffset, Utf8Encode(updateInformation.value));
      PatchCarrierSection(carrier, payload, sec, Utf8Encode(updateInformation.value));
      PatchInsideSection(carrier, sec, Utf8Encode(updateInformation.value));
    }
    var updated := WithUpdateInformation(carrier + payload, table, updateInformation).image;
    assert updated == head1 + payload && |head1| == |carrier|;
    // The carrier part after the signing stage.
    var head3 := head1;
    if Configured(signKey) {
      var sigSec, keySec := table[SignatureSection], table[SignatureKeySection];
      var sig := tc.gpgSign(SignedMessage(tc.sha256(updated)), signKey.value);
      var key := Utf8Encode(tc.gpgExportKeys(signKey.value));
      assert Fits(sigSec, sig);
      PatchCarrierSection(head1, payload, sigSec, sig);
      PatchInsideSection(head1, sigSec, sig);
      var head2 := WriteAt(head1, sigSec.fileOffset, sig);
      PatchCarrierSection(head2, payload, keySec, key);
      PatchInsideSection(head2, keySec, key);
      head3 := WriteAt(head2, keySec.fileOffset, key);
    }
    var bundle := ExpectedBundle(carrier, payload, updateInformation, signKey, tc);
    assert bundle == head3 + payload;
    assert (head3 + payload)[|head3|..] == payload;
  }

  class AppImagePrimer {
    // Recipe settings, read once by the constructor.
    const arch: string
    const updateInformation: Option<string>
    const signKey: Option<string>
    const appImageFileName: string

    // Files on disk.
    var carrier: Option<seq<byte>>   // build_dir/prime/runtime-<arch>, None when not there
    var appImage: seq<byte>          // the bundle file in the working directory
    var mode: Mode                   // the bundle file's st_mode
    var payload: Option<seq<byte>>   // the AppDir's .squashfs image, None when not there

    constructor (name: string, version: string, arch: string, fileName: Option<string>,
                 updateInformation: Option<string>, signKey: Option<string>,
                 cachedCarrier: Option<seq<byte>>, newFileMode: Mode)
      ensures this.arch == arch && this.updateInformation == updateInformation && this.signKey == signKey
      ensures appImageFileName == ResolveAppImageFileName(name, version, arch, fileName)
      ensures carrier == cachedCarrier && appImage == [] && mode == newFileMode && payload == None
    {
      this.arch := arch;
      this.updateInformation := updateInformation;
      this.signKey := signKey;
      appImageFileName := ResolveAppImageFileName(name, version, arch, fileName);
      carrier := cachedCarrier;
      appImage := [];
      mode := newFileMode;
      payload := None;
    }

    /** `_get_appimage_kit_runtime`: download the runtime for this architecture. */
    method GetAppImageKitRuntime(tc: Toolchain) returns (o: Outcome<PrimeError>)
      modifies this`carrier
      ensures tc.download(RuntimeUrl(arch)).Fetched? ==> o == Pass && carrier == Some(tc.download(RuntimeUrl(arch)).bytes)
      ensures tc.download(RuntimeUrl(arch)).FailedBeforeWriting? ==>
                o == Fail(RuntimeDownloadFailed(RuntimeUrl(arch))) && carrier == old(carrier)
      ensures tc.download(RuntimeUrl(arch)).FailedPartWay? ==>
                o == Fail(RuntimeDownloadFailed(RuntimeUrl(arch))) && carrier == Some(tc.download(RuntimeUrl(arch)).left)
    {
      var url := RuntimeUrl(arch);
      match tc.download(url) {
        case Fetched(bytes) =>
          carrier := Some(bytes);
          o := Pass;
        case FailedBeforeWriting =>
          o := Fail(RuntimeDownloadFailed(url));
        case FailedPartWay(left) =>
          carrier := Some(left);
          o := Fail(RuntimeDownloadFailed(url));
      }
    }

    /** `_add_payload`: append the payload file to the bundle, then delete the
        payload file whether or not the copy succeeded. `failAfter` is the number
        of bytes after which the copy raises, if it does. */
    method AddPayload(failAfter: Option<nat>) returns (o: Outcome<PrimeError>)
      modifies this`appImage, this`payload
      ensures payload == None
      ensures old(payload).None? ==> o == Fail(PayloadMissing) && appImage == old(appImage)
      ensures old(payload).Some? && (failAfter.None? || failAfter.value >= |old(payload).value|) ==>
                o == Pass && appImage == old(appImage) + old(payload).value
      ensures old(payload).Some? && failAfter.Some? && failAfter.value < |old(payload).value| ==>
                o == Fail(PayloadCopyFailed) && appImage == old(appImage) + old(payload).value[..failAfter.value]
    {
      if payload.None? {
        o := Fail(PayloadMissing);
      } else if failAfter.Some? && failAfter.value < |payload.value| {
        appImage := appImage + payload.value[..failAfter.value];
        o := Fail(PayloadCopyFailed);
      } else {
        appImage := appImage + payload.value;
        o := Pass;
      }
      payload := None;
    }

    /** `_patch_appimage`: seek to `offset` and write `data` over the bundle. */
    method PatchAppImage(offset: nat, data: seq<byte>)
      modifies this`appImage
      ensures appImage == WriteAt(old(appImage), offset, data)
    {
      appImage := WriteAt(appImage, offset, data);
    }

    method AddAppImageUpdateInformation(table: SectionTable) returns (o: Outcome<PrimeError>)
      modifies this`appImage
      ensures appImage == WithUpdateInformation(old(appImage), table, updateInformation).image
      ensures o == WithUpdateInformation(old(appImage), table, updateInformation).outcome
    {
      o := Pass;
      if Configured(updateInformation) {
        if UpdateInfoSection !in table {
          return Fail(MissingSection(UpdateInfoSection));
        }
        PatchAppImage(table[UpdateInfoSection].fileOffset, Utf8Encode(updateInformation.value));
      }
    }

    /** `_generate_checksums`: one pass over the bundle in chunks of `chunkSize`
        bytes, each chunk fed to both digests. A hashlib object is modelled by the
        bytes fed to it so far. A zero chunk size reads nothing. */
    method GenerateChecksums(tc: Toolchain, chunkSize: nat) returns (md5Digest: Digest16, sha256Digest: Digest32)
      ensures chunkSize > 0 ==> md5Digest == tc.md5(appImage) && sha256Digest == tc.sha256(appImage)
      ensures chunkSize == 0 ==> md5Digest == tc.md5([]) && sha256Digest == tc.sha256([])
    {
      var md5Fed: seq<byte> := [];
      var sha256Fed: seq<byte> := [];
      var position: nat := 0;
      while true
        invariant position <= |appImage|
        invariant md5Fed == appImage[..position] && sha256Fed == appImage[..position]
        invariant chunkSize == 0 ==> position == 0
        decreases |appImage| - position
      {
        var data := ReadAt(appImage, position, chunkSize);
        if data == [] {
          break;
        }
        assert appImage[..position + |data|] == appImage[..position] + data;
        position := position + |data|;
        md5Fed := md5Fed + data;
        sha256Fed := sha256Fed + data;
      }
      assert chunkSize > 0 ==> position == |appImage|;
      assert appImage[..|appImage|] == appImage;
      md5Digest := tc.md5(md5Fed);
      sha256Digest := tc.sha256(sha256Fed);
    }

    method SignBundleSha256Digest(tc: Toolchain, table: SectionTable, bundleSha256: Digest32)
      returns (o: Outcome<PrimeError>)
      modifies this`appImage
      ensures appImage == WithSignature(old(appImage), table, signKey, bundleSha256, tc).image
      ensures o == WithSignature(old(appImage), table, signKey, bundleSha256, tc).outcome
    {
      o := Pass;
      if Configured(signKey) {
        var signature := tc.gpgSign(HexEncode(bundleSha256), signKey.value);
        if SignatureSection !in table {
          return Fail(MissingSection(SignatureSection));
        }
        PatchAppImage(table[SignatureSection].fileOffset, signature);
        var key := tc.gpgExportKeys(signKey.value);
        if SignatureKeySection !in table {
          return Fail(MissingSection(SignatureKeySection));
        }
        PatchAppImage(table[SignatureKeySection].fileOffset, Utf8Encode(key));
      }
    }

    /** `_generate_zsync_file`: runs zsyncmake beside the bundle; the bundle itself is not touched. */
    method GenerateZsyncFile(tc: Toolchain) returns (o: Outcome<PrimeError>)
      ensures o == if Configured(updateInformation) && !tc.zsyncmakeOk then Fail(ZsyncmakeFailed) else Pass
    {
      o := Pass;
      if Configured(updateInformation) && !tc.zsyncmakeOk {
        o := Fail(ZsyncmakeFailed);
      }
    }

    /** `_make_appimage_executable`: `chmod(path, st_mode | S_IEXEC)`. */
    method MakeAppImageExecutable()
      modifies this`mode
      ensures mode == WithOwnerExecute(old(mode))
    {
      mode := mode | S_IEXEC;
    }

    /** `prime`: the whole pipeline, stopping at the first stage that fails. */
    method Prime(tc: Toolchain, failAfter: Option<nat>) returns (o: Outcome<PrimeError>)
      modifies this`carrier, this`appImage, this`mode, this`payload
      ensures o.Pass? ==> old(carrier).Some? || tc.download(RuntimeUrl(arch)).Fetched?
      ensures o.Pass? ==> tc.squashfs.Some? && carrier.Some?
      ensures o.Pass? ==>
                var runtime := if old(carrier).Some? then old(carrier).value else tc.download(RuntimeUrl(arch)).bytes;
                && carrier == Some(runtime)
                && appImage == ExpectedBundle(runtime, tc.squashfs.value, updateInformation, signKey, tc)
                && mode == WithOwnerExecute(old(mode))
                && payload == None
      ensures o.Fail? ==> mode == old(mode)
      ensures o == Fail(RuntimeDownloadFailed(RuntimeUrl(arch))) ==>
                old(carrier).None? && !tc.download(RuntimeUrl(arch)).Fetched? &&
                carrier == (if tc.download(RuntimeUrl(arch)).FailedPartWay? then Some(tc.download(RuntimeUrl(arch)).left) else None)
      ensures o.Fail? && o.error in {PayloadMissing, PayloadCopyFailed} ==> payload == None
    {
      if carrier.None? {
        o := GetAppImageKitRuntime(tc);
        if o.Fail? {
          return;
        }
      }
      var runtime := carrier.value;
      if tc.squashfs.None? {
        return Fail(SquashfsFailed);
      }
      payload := tc.squashfs;

      appImage := runtime;   // shutil.copyfile(carrier_path, appimage_path)
      o := AddPayload(failAfter);
      if o.Fail? {
        return;
      }

      var table := tc.sections(runtime);
      o := AddAppImageUpdateInformation(table);
      if o.Fail? {
        return;
      }
      ghost var updated := appImage;
      var md5Digest, sha256Digest := GenerateChecksums(tc, ChunkSize);
      o := SignBundleSha256Digest(tc, table, sha256Digest);
      if o.Fail? {
        return;
      }
      o := GenerateZsyncFile(tc);
      if o.Fail? {
        return;
      }
      MakeAppImageExecutable();
    }
  }
}
