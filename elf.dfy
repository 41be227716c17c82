/** ELF header probing: the identification magic and the target machine, read
    at the fixed positions the ELF header of the System V Application Binary
    Interface (gABI, chapter 4, "ELF Header") gives them: `e_ident[EI_MAG0..EI_MAG3]`
    at offsets 0 to 3 and the low byte of the little-endian `e_machine` at offset 18. */
module Elf {
  import opened Wrappers
  import opened Bytes

  /** `\x7fELF`. */
  const ElfMagic: seq<byte> := [0x7F, 0x45, 0x4C, 0x46]

  /** Offset of `e_machine` in the ELF header. */
  const MachineOffset: nat := 18

  /** `has_magic_bytes`: the first (up to) four bytes read equal the magic. */
  function HasMagicBytes(file: seq<byte>): (r: bool)
    ensures r <==> |file| >= 4 && file[0] == 0x7F && file[1] == 0x45 && file[2] == 0x4C && file[3] == 0x46
  {
    ReadAt(file, 0, 4) == ElfMagic
  }

  /** The architectures appimage-builder knows, by the `e_machine` byte. */
  const KnownArchitectures: map<seq<byte>, string> :=
    map[[0xB7] := "aarch64", [0x28] := "gnueabihf", [0x03] := "i386", [0x3E] := "x86_64"]

  const KnownNames: set<string> := {"aarch64", "gnueabihf", "i386", "x86_64"}

  /** The `RuntimeError` raised for an unknown machine; it names the bytes read
      (none when the file is shorter than 19 bytes). */
  datatype ArchError = UnknownArchitecture(eMachine: seq<byte>)

  /** `get_arch`: look the one byte read at offset 18 up in the known architectures. */
  function GetArch(file: seq<byte>): (r: Result<string, ArchError>)
    ensures r.Ok? <==> |file| > MachineOffset && file[MachineOffset] in {0xB7, 0x28, 0x03, 0x3E}
    ensures r.Ok? ==> r.value in KnownNames
    ensures r.Ok? && file[MachineOffset] == 0xB7 ==> r.value == "aarch64"
    ensures r.Ok? && file[MachineOffset] == 0x28 ==> r.value == "gnueabihf"
    ensures r.Ok? && file[MachineOffset] == 0x03 ==> r.value == "i386"
    ensures r.Ok? && file[MachineOffset] == 0x3E ==> r.value == "x86_64"
    ensures r.Err? ==> r.error.eMachine == (if |file| > MachineOffset then [file[MachineOffset]] else [])
  {
    var eMachine := ReadAt(file, MachineOffset, 1);
    assert eMachine == if |file| > MachineOffset then [file[MachineOffset]] else [];
    assert eMachine in KnownArchitectures <==> eMachine in {[0xB7], [0x28], [0x03], [0x3E]};
    if eMachine in KnownArchitectures then Ok(KnownArchitectures[eMachine])
    else Err(UnknownArchitecture(eMachine))
  }

  /** The result of `get_arch` depends on the byte at offset 18 and nothing else. */
  lemma GetArchReadsOnlyMachineByte(f: seq<byte>, g: seq<byte>)
    requires |f| > MachineOffset && |g| > MachineOffset && f[MachineOffset] == g[MachineOffset]
    ensures GetArch(f) == GetArch(g)
  {
    assert ReadAt(f, MachineOffset, 1) == [f[MachineOffset]];
    assert ReadAt(g, MachineOffset, 1) == [g[MachineOffset]];
  }

  /** A file too short to hold `e_machine` is always an unknown architecture. */
  lemma GetArchShortFile(f: seq<byte>)
    requires |f| <= MachineOffset
    ensures GetArch(f) == Err(UnknownArchitecture([]))
  {
  }

  /** The four architecture names are distinct, so the table is one-to-one. */
  lemma KnownArchitecturesInjective(a: seq<byte>, b: seq<byte>)
    requires a in KnownArchitectures && b in KnownArchitectures && a != b
    ensures KnownArchitectures[a] != KnownArchitectures[b]
  {
  }
}
