/**
 * The Program Association Table (ISO/IEC 13818-1, section 2.4.4.3): the
 * body of a PAT section is a list of four-byte entries, each a 16-bit
 * program number and a 13-bit PID. Program number 0 names the NIT's PID;
 * every other entry names the PID of a program's PMT.
 */
module Pat {
  import opened Wrappers
  import opened Bytes
  import opened Psi

  /** `PatEntry` */
  datatype PatEntry = PatEntry(programNumber: nat, pid: nat)

  /** `PatTable` */
  datatype PatTable = PatTable(transportStreamId: nat, versionNumber: nat, programs: seq<PatEntry>, nitPid: Option<nat>)

  /** The program number of entry `k` of a PAT body. */
  function ProgramNumberAt(data: seq<byte>, k: nat): (r: nat)
    requires 4 * k + 4 <= |data|
    ensures r < 0x1_0000 && r / 256 == data[4 * k] && r % 256 == data[4 * k + 1]
  {
    GetU16Be(data[4 * k..])
  }

  /** The PID of entry `k`: the low five bits of its third byte over its fourth byte. */
  function PidAt(data: seq<byte>, k: nat): (r: nat)
    requires 4 * k + 4 <= |data|
    ensures r < 0x2000 && r / 256 == data[4 * k + 2] % 32 && r % 256 == data[4 * k + 3]
  {
    (data[4 * k + 2] as int % 32) * 256 + data[4 * k + 3] as int
  }

  /** The program entries among the first `n` entries, in order; program number 0 is not one of them. */
  function ProgramsOf(data: seq<byte>, n: nat): (r: seq<PatEntry>)
    requires 4 * n <= |data|
    ensures |r| <= n
    ensures forall e :: e in r ==> e.programNumber != 0 && e.programNumber < 0x1_0000 && e.pid < 0x2000
  {
    if n == 0 then []
    else
      var number := ProgramNumberAt(data, n - 1);
      ProgramsOf(data, n - 1) + (if number == 0 then [] else [PatEntry(number, PidAt(data, n - 1))])
  }

  /** The NIT PID among the first `n` entries: the PID of the last entry numbered 0. */
  function NitPidOf(data: seq<byte>, n: nat): (r: Option<nat>)
    requires 4 * n <= |data|
    ensures r.Some? ==> r.value < 0x2000
  {
    if n == 0 then None
    else if ProgramNumberAt(data, n - 1) == 0 then Some(PidAt(data, n - 1))
    else NitPidOf(data, n - 1)
  }

  /** What `PatTable::parse` yields for a section. */
  function PatOf(section: PsiSection): (r: Result<PatTable, string>)
    ensures r.Err? <==> section.header.tableId != TABLE_ID_PAT || |section.data| % 4 != 0
    ensures r.Err? && section.header.tableId != TABLE_ID_PAT ==> r.error == "Not a PAT section"
    ensures r.Err? && section.header.tableId == TABLE_ID_PAT ==> r.error == "Invalid PAT data length"
    ensures r.Ok? ==>
      r.value.transportStreamId == section.header.tableIdExtension
      && r.value.versionNumber == section.header.versionNumber
  {
    if section.header.tableId != TABLE_ID_PAT then Err("Not a PAT section")
    else if |section.data| % 4 != 0 then Err("Invalid PAT data length")
    else
      var n := |section.data| / 4;
      Ok(PatTable(section.header.tableIdExtension, section.header.versionNumber,
                  ProgramsOf(section.data, n), NitPidOf(section.data, n)))
  }

  /** `PatTable::parse` */
  method ParsePat(section: PsiSection) returns (r: Result<PatTable, string>)
    ensures r == PatOf(section)
  {
    if section.header.tableId != TABLE_ID_PAT {
      return Err("Not a PAT section");
    }
    var data := section.data;
    if |data| % 4 != 0 {
      return Err("Invalid PAT data length");
    }
    var programs, nitPid := ReadEntries(data);
    r := Ok(PatTable(section.header.tableIdExtension, section.header.versionNumber, programs, nitPid));
  }

  /** The entry loop of `PatTable::parse`: programs in order, and the PID of the last entry numbered 0. */
  method ReadEntries(data: seq<byte>) returns (programs: seq<PatEntry>, nitPid: Option<nat>)
    ensures programs == ProgramsOf(data, |data| / 4) && nitPid == NitPidOf(data, |data| / 4)
  {
    programs := [];
    nitPid := None;
    var k := 0;
    while k < |data| / 4
      invariant 0 <= k <= |data| / 4
      invariant programs == ProgramsOf(data, k)
      invariant nitPid == NitPidOf(data, k)
    {
      var programNumber := ProgramNumberAt(data, k);
      var pid := PidAt(data, k);
      if programNumber == 0 {
        nitPid := Some(pid);
      } else {
        programs := programs + [PatEntry(programNumber, pid)];
      }
      k := k + 1;
    }
  }

  /** `get_pmt_pid`: the PID of the first program with the number. */
  function GetPmtPid(programs: seq<PatEntry>, programNumber: nat): (r: Option<nat>)
    ensures r.None? <==> forall e :: e in programs ==> e.programNumber != programNumber
    ensures r.Some? ==> exists i :: (0 <= i < |programs| && programs[i] == PatEntry(programNumber, r.value)
      && forall j :: 0 <= j < i ==> programs[j].programNumber != programNumber)
  {
    if programs == [] then None
    else if programs[0].programNumber == programNumber then Some(programs[0].pid)
    else
      var r := GetPmtPid(programs[1..], programNumber);
      assert forall e :: e in programs[1..] ==> e in programs;
      assert forall e :: e in programs ==> e == programs[0] || e in programs[1..];
      if r.Some? then
        var i :| 0 <= i < |programs[1..]| && programs[1..][i] == PatEntry(programNumber, r.value)
          && forall j :: 0 <= j < i ==> programs[1..][j].programNumber != programNumber;
        assert programs[i + 1] == PatEntry(programNumber, r.value);
        r
      else r
  }

  /** `get_all_pmt_pids`: the PIDs of the programs, in order. */
  function AllPmtPids(programs: seq<PatEntry>): (r: seq<nat>)
    ensures |r| == |programs| && forall i :: 0 <= i < |r| ==> r[i] == programs[i].pid
  {
    seq(|programs|, i requires 0 <= i < |programs| => programs[i].pid)
  }

  /** `get_all_program_numbers`: the program numbers, in order. */
  function AllProgramNumbers(programs: seq<PatEntry>): (r: seq<nat>)
    ensures |r| == |programs| && forall i :: 0 <= i < |r| ==> r[i] == programs[i].programNumber
  {
    seq(|programs|, i requires 0 <= i < |programs| => programs[i].programNumber)
  }

  /* ---- Encoding: the partner of parsing ---- */

  /** An entry as four bytes, the PID's top three bits set as reserved bits are on the air. */
  function EncodeEntry(e: PatEntry): (r: seq<byte>)
    requires e.programNumber < 0x1_0000 && e.pid < 0x2000
    ensures |r| == 4
  {
    [e.programNumber / 256, e.programNumber % 256, 0xE0 + e.pid / 256, e.pid % 256]
  }

  /** A PAT body listing `entries`. */
  function EncodeEntries(entries: seq<PatEntry>): (r: seq<byte>)
    requires forall e :: e in entries ==> e.programNumber < 0x1_0000 && e.pid < 0x2000
    ensures |r| == 4 * |entries|
  {
    if entries == [] then [] else EncodeEntries(entries[..|entries| - 1]) + EncodeEntry(entries[|entries| - 1])
  }

  /** Programs that a PAT can carry: nonzero program numbers, 13-bit PIDs. */
  predicate ValidPrograms(programs: seq<PatEntry>)
  {
    forall e :: e in programs ==> 0 < e.programNumber < 0x1_0000 && e.pid < 0x2000
  }

  /** Entry `k` of an encoded body decodes to the entry that was encoded. */
  lemma {:induction false} EncodedEntryAt(entries: seq<PatEntry>, k: nat)
    requires forall e :: e in entries ==> e.programNumber < 0x1_0000 && e.pid < 0x2000
    requires k < |entries|
    ensures ProgramNumberAt(EncodeEntries(entries), k) == entries[k].programNumber
    ensures PidAt(EncodeEntries(entries), k) == entries[k].pid
  {
    var data := EncodeEntries(entries);
    var last := |entries| - 1;
    var front := entries[..last];
    assert forall e :: e in front ==> e in entries;
    if k < last {
      EncodedEntryAt(front, k);
      assert data[4 * k..4 * k + 4] == EncodeEntries(front)[4 * k..4 * k + 4];
    } else {
      assert data[4 * k..4 * k + 4] == EncodeEntry(entries[k]);
    }
  }

  /** The first `n` entries of an encoded body, none numbered 0, decode to the first `n` entries. */
  lemma {:induction false} ProgramsOfEncoded(entries: seq<PatEntry>, n: nat)
    requires forall e :: e in entries ==> e.programNumber < 0x1_0000 && e.pid < 0x2000
    requires n <= |entries| && forall i :: 0 <= i < n ==> entries[i].programNumber != 0
    ensures ProgramsOf(EncodeEntries(entries), n) == entries[..n]
    ensures NitPidOf(EncodeEntries(entries), n) == None
  {
    if n > 0 {
      var data := EncodeEntries(entries);
      ProgramsOfEncoded(entries, n - 1);
      EncodedEntryAt(entries, n - 1);
      assert ProgramsOf(data, n) == ProgramsOf(data, n - 1) + [entries[n - 1]];
      assert entries[..n] == entries[..n - 1] + [entries[n - 1]];
    }
  }

  /** Parsing a PAT section whose body lists valid programs gives them back, with no NIT PID. */
  lemma PatRoundTrip(header: PsiHeader, programs: seq<PatEntry>)
    requires header.tableId == TABLE_ID_PAT && ValidPrograms(programs)
    ensures var r := PatOf(PsiSection(header, EncodeEntries(programs), 0));
      r.Ok? && r.value.programs == programs && r.value.nitPid == None
      && r.value.transportStreamId == header.tableIdExtension
  {
    var data := EncodeEntries(programs);
    assert |data| / 4 == |programs|;
    assert forall i :: 0 <= i < |programs| ==> programs[i] in programs;
    ProgramsOfEncoded(programs, |programs|);
    assert programs[..|programs|] == programs;
  }

  /** An entry numbered 0 anywhere in a body names the NIT PID, and appending one after the programs sets it. */
  lemma NitEntrySetsNitPid(programs: seq<PatEntry>, nitPid: nat)
    requires ValidPrograms(programs) && nitPid < 0x2000
    ensures var data := EncodeEntries(programs + [PatEntry(0, nitPid)]);
      ProgramsOf(data, |data| / 4) == programs && NitPidOf(data, |data| / 4) == Some(nitPid)
  {
    var all := programs + [PatEntry(0, nitPid)];
    var data := EncodeEntries(all);
    assert |data| / 4 == |all|;
    assert forall e :: e in all ==> e == PatEntry(0, nitPid) || e in programs;
    assert forall i :: 0 <= i < |programs| ==> all[i] == programs[i] && programs[i] in programs;
    ProgramsOfEncoded(all, |programs|);
    assert all[..|programs|] == programs;
    EncodedEntryAt(all, |programs|);
  }
}
