/**
 * Concurrent downloads of one release asset: any number of processes, each
 * free to fail or die at any step (npm/neuroncli/lib/binary.js).
 */
module Download {
  import opened Wrappers
  import opened Text

  type Bytes = seq<int>

  // ------------------------------------------------------------- checksums

  /** The hash function, the white space of regular expressions, and what is published. */
  datatype World = World(hash: Bytes -> string, isSpace: char -> bool, published: string, asset: string)

  predicate IsHex(c: char) {
    '0' <= c <= '9' || 'a' <= c <= 'f' || 'A' <= c <= 'F'
  }

  function Lower(s: string): (r: string)
    ensures |r| == |s|
  {
    seq(|s|, i requires 0 <= i < |s| => if 'A' <= s[i] <= 'F' then s[i] + ('a' - 'A') else s[i])
  }

  /** 64 hexadecimal digits after any white space, and then white space or the end. */
  function ParseChecksum(isSpace: char -> bool, text: string): (sum: Option<string>) {
    var s := TrimStart(isSpace, text);
    if |s| >= 64 && (forall i :: 0 <= i < 64 ==> IsHex(s[i])) && (|s| == 64 || isSpace(s[64])) then Some(Lower(s[..64]))
    else None
  }

  /** A checksum starts at `k`: white space before it, 64 digits, and white space or the end after them. */
  ghost predicate HasChecksumAt(isSpace: char -> bool, text: string, k: nat) {
    && k + 64 <= |text|
    && (forall i :: 0 <= i < k ==> isSpace(text[i]))
    && (forall i :: k <= i < k + 64 ==> IsHex(text[i]))
    && (k + 64 == |text| || isSpace(text[k + 64]))
  }

  /** The same digit, as the small letter of the two it may be. */
  predicate IsSmall(c: char, small: char) {
    if c in "ABCDEF" then small as int == c as int + 32 else small == c
  }

  /** A checksum is read exactly when there is one, and is the one there is in small letters. */
  lemma {:induction false} ChecksumIsRead(isSpace: char -> bool, text: string)
    requires SaneSpaces(isSpace)
    ensures ParseChecksum(isSpace, text).Some? <==> exists k :: HasChecksumAt(isSpace, text, k)
    ensures forall k :: HasChecksumAt(isSpace, text, k) ==>
              var sum := ParseChecksum(isSpace, text).value;
              |sum| == 64 && forall i :: 0 <= i < 64 ==> IsSmall(text[k + i], sum[i])
  {
    forall k: nat | HasChecksumAt(isSpace, text, k)
      ensures ParseChecksum(isSpace, text).Some?
      ensures var sum := ParseChecksum(isSpace, text).value;
              |sum| == 64 && forall i :: 0 <= i < 64 ==> IsSmall(text[k + i], sum[i])
    {
      SpacesAreTrimmed(isSpace, text, k);
      var s := text[k..];
      assert forall i :: 0 <= i < 64 ==> s[i] == text[k + i];
    }
    if ParseChecksum(isSpace, text).Some? {
      var k := SpacesBefore(isSpace, text);
      var s := TrimStart(isSpace, text);
      assert s == text[k..];
      assert forall i :: k <= i < k + 64 ==> text[i] == s[i - k];
      assert |s| > 64 ==> text[k + 64] == s[64];
      assert HasChecksumAt(isSpace, text, k);
    }
  }

  lemma {:induction false} SpacesAreTrimmed(isSpace: char -> bool, text: string, k: nat)
    requires k < |text| && (forall i :: 0 <= i < k ==> isSpace(text[i])) && !isSpace(text[k])
    ensures TrimStart(isSpace, text) == text[k..]
  {
    if k > 0 {
      SpacesAreTrimmed(isSpace, text[1..], k - 1);
      assert text[1..][k - 1..] == text[k..];
    }
  }

  lemma {:induction false} SpacesBefore(isSpace: char -> bool, text: string) returns (k: nat)
    ensures k <= |text| && (forall i :: 0 <= i < k ==> isSpace(text[i])) && TrimStart(isSpace, text) == text[k..]
  {
    if text != "" && isSpace(text[0]) {
      var more := SpacesBefore(isSpace, text[1..]);
      k := more + 1;
      assert text[1..][more..] == text[k..];
      assert forall i :: 0 < i < k ==> text[i] == text[1..][i - 1];
    } else {
      k := 0;
    }
  }

  ghost predicate SaneSpaces(isSpace: char -> bool) {
    isSpace(' ') && forall c :: IsHex(c) ==> !isSpace(c)
  }

  function SidecarText(expected: string, asset: string): (text: string) {
    expected + "  " + asset + "\n"
  }

  /** The sidecar written for a checksum is read as that checksum. */
  lemma SidecarIsRead(isSpace: char -> bool, text: string, asset: string)
    requires SaneSpaces(isSpace) && ParseChecksum(isSpace, text).Some?
    ensures var expected := ParseChecksum(isSpace, text).value;
            ParseChecksum(isSpace, SidecarText(expected, asset)) == Some(expected)
  {
    var s := TrimStart(isSpace, text);
    var expected := ParseChecksum(isSpace, text).value;
    var sidecar := SidecarText(expected, asset);
    assert forall i :: 0 <= i < 64 ==> IsHex(expected[i]) && !('A' <= expected[i] <= 'F');
    assert sidecar[..64] == expected && sidecar[64] == ' ';
    assert IsHex(sidecar[0]);
    assert TrimStart(isSpace, sidecar) == sidecar;
    assert Lower(expected) == expected;
  }

  // ------------------------------------------------------------- processes

  /** An install location: the binary, the sidecar beside it, and the sidecar a sidecar would have. */
  datatype Location = Location(binary: Option<Bytes>, sidecar: Option<string>, nested: Option<string>)

  /** Where a process is. */
  datatype Pc =
    | Look(at: nat)                      // is there a binary?
    | LookSidecar(at: nat)               // and a checksum beside it?
    | MakeDirectory(at: nat)
    | FetchChecksum(at: nat)
    | Fetch(at: nat)
    | Check(at: nat, temporary: Bytes)
    | Install(at: nat, temporary: Bytes)
    | RenameFailed(at: nat, permission: bool)         // is there a binary after all?
    | RenameFailedSidecar(at: nat, permission: bool)  // and a checksum beside it?
    | WriteSidecar(at: nat)
    | InstallSidecar(at: nat, text: string)
    | SidecarFailed(at: nat, permission: bool)        // is there a sidecar after all?
    | SidecarFailedNested(at: nat, permission: bool)  // and a sidecar of the sidecar?
    | Returned(at: nat)
    | Failed
    | Killed

  /** What happens to the process at its next step. */
  datatype Event =
    | Proceeds
    | Receives(bytes: Bytes)
    | Throws(permission: bool)
    | Dies

  /** An error leaves a location: for the next one when permission was refused, and for good otherwise. */
  function Escape(locations: nat, at: nat, permission: bool): (pc: Pc) {
    if permission && at + 1 < locations then MakeDirectory(at + 1) else Failed
  }

  predicate HasChecksum(w: World, l: Location) {
    l.sidecar.Some? && ParseChecksum(w.isSpace, l.sidecar.value).Some?
  }

  /** The same question asked of the sidecar as if it were a binary. */
  predicate HasNestedChecksum(w: World, l: Location) {
    l.nested.Some? && ParseChecksum(w.isSpace, l.nested.value).Some?
  }

  predicate IsVerified(w: World, l: Location) {
    l.binary.Some? && HasChecksum(w, l)
  }

  predicate IsDone(pc: Pc) {
    pc.Returned? || pc.Failed? || pc.Killed?
  }

  /** The process after one step. */
  function Advance(w: World, disk: seq<Location>, pc: Pc, e: Event): (next: Pc) {
    if IsDone(pc) then pc
    else if e.Dies? then Killed
    else if pc.Look? then
      if pc.at >= |disk| then (if |disk| > 0 then MakeDirectory(0) else Failed)
      else if disk[pc.at].binary.Some? then LookSidecar(pc.at)
      else Look(pc.at + 1)
    else if pc.at >= |disk| then Failed
    else if pc.LookSidecar? then
      if !e.Throws? && HasChecksum(w, disk[pc.at]) then Returned(pc.at) else Look(pc.at + 1)
    else if pc.RenameFailed? then
      if disk[pc.at].binary.Some? then RenameFailedSidecar(pc.at, pc.permission) else Escape(|disk|, pc.at, pc.permission)
    else if pc.RenameFailedSidecar? then
      if !e.Throws? && HasChecksum(w, disk[pc.at]) then WriteSidecar(pc.at) else Escape(|disk|, pc.at, pc.permission)
    else if pc.SidecarFailed? then
      if disk[pc.at].sidecar.Some? then SidecarFailedNested(pc.at, pc.permission) else Escape(|disk|, pc.at, pc.permission)
    else if pc.SidecarFailedNested? then
      if !e.Throws? && HasNestedChecksum(w, disk[pc.at]) then Returned(pc.at) else Escape(|disk|, pc.at, pc.permission)
    else if pc.FetchChecksum? then
      // Every failure here is one of the network or of the published text.
      if e.Throws? || ParseChecksum(w.isSpace, w.published).None? then Failed else Fetch(pc.at)
    else if pc.Check? && (ParseChecksum(w.isSpace, w.published).None? || w.hash(pc.temporary) != ParseChecksum(w.isSpace, w.published).value) then
      Failed
    else if e.Throws? then
      // A failed rename asks whether the file is there nevertheless.
      if pc.Install? then RenameFailed(pc.at, e.permission)
      else if pc.InstallSidecar? then SidecarFailed(pc.at, e.permission)
      else Escape(|disk|, pc.at, e.permission)
    else if pc.MakeDirectory? then FetchChecksum(pc.at)
    else if pc.Fetch? then Check(pc.at, if e.Receives? then e.bytes else [])
    else if pc.Check? then Install(pc.at, pc.temporary)
    else if pc.Install? then WriteSidecar(pc.at)
    else if pc.WriteSidecar? && ParseChecksum(w.isSpace, w.published).Some? then
      InstallSidecar(pc.at, SidecarText(ParseChecksum(w.isSpace, w.published).value, w.asset))
    else if pc.InstallSidecar? then Returned(pc.at)
    else Failed
  }

  /** The locations after one step: only the two renames change them. */
  function Changed(disk: seq<Location>, pc: Pc, e: Event): (after: seq<Location>)
    ensures |after| == |disk|
  {
    if e.Dies? || e.Throws? then disk
    else if pc.Install? && pc.at < |disk| then disk[pc.at := disk[pc.at].(binary := Some(pc.temporary))]
    else if pc.InstallSidecar? && pc.at < |disk| then disk[pc.at := disk[pc.at].(sidecar := Some(pc.text))]
    else disk
  }

  datatype System = System(disk: seq<Location>, processes: seq<Pc>)

  /** One step of one process. */
  function Step(w: World, s: System, i: nat, e: Event): (next: System)
    ensures |next.disk| == |s.disk| && |next.processes| == |s.processes|
  {
    if i >= |s.processes| then s
    else System(Changed(s.disk, s.processes[i], e), s.processes[i := Advance(w, s.disk, s.processes[i], e)])
  }

  datatype Turn = Turn(process: nat, event: Event)

  /** The system after the first `n` turns. */
  function After(w: World, s: System, turns: seq<Turn>, n: nat): (r: System)
    requires n <= |turns|
    ensures |r.disk| == |s.disk| && |r.processes| == |s.processes|
  {
    if n == 0 then s
    else Step(w, After(w, s, turns, n - 1), turns[n - 1].process, turns[n - 1].event)
  }

  function Empty(locations: nat, processes: nat): (s: System) {
    System(seq(locations, i => Location(None, None, None)), seq(processes, i => Look(0)))
  }

  // ----------------------------------------------------------------- safety

  predicate HasDigest(w: World, bytes: Bytes) {
    ParseChecksum(w.isSpace, w.published) == Some(w.hash(bytes))
  }

  /** A location holds the published binary or none, no sidecar without it, and no sidecar of the sidecar. */
  ghost predicate IsSound(w: World, l: Location) {
    && (l.binary.Some? ==> HasDigest(w, l.binary.value))
    && (l.sidecar.Some? ==> l.binary.Some? && HasChecksum(w, l))
    && l.nested.None?
  }

  /** What a process may rely on where it is. */
  ghost predicate IsPlaced(w: World, disk: seq<Location>, pc: Pc) {
    && (pc.Install? ==> HasDigest(w, pc.temporary))
    && (pc.WriteSidecar? || pc.InstallSidecar? || pc.LookSidecar? || pc.RenameFailedSidecar? || pc.SidecarFailedNested? || pc.Returned? ==>
          pc.at < |disk| && disk[pc.at].binary.Some?)
    && (pc.WriteSidecar? ==> ParseChecksum(w.isSpace, w.published).Some?)
    && (pc.InstallSidecar? ==> ParseChecksum(w.isSpace, pc.text).Some?)
    && (pc.Returned? ==> disk[pc.at].sidecar.Some?)
  }

  ghost predicate Safe(w: World, s: System) {
    && (forall l :: 0 <= l < |s.disk| ==> IsSound(w, s.disk[l]))
    && (forall i :: 0 <= i < |s.processes| ==> IsPlaced(w, s.disk, s.processes[i]))
  }

  /** Nothing that is installed is ever removed. */
  ghost predicate OnlyGains(before: seq<Location>, after: seq<Location>) {
    && |after| == |before|
    && forall l :: 0 <= l < |before| ==>
         && (before[l].binary.Some? ==> after[l].binary.Some?)
         && (before[l].sidecar.Some? ==> after[l].sidecar.Some?)
  }

  lemma StaysPlaced(w: World, before: seq<Location>, after: seq<Location>, pc: Pc)
    requires IsPlaced(w, before, pc) && OnlyGains(before, after)
    ensures IsPlaced(w, after, pc)
  {}

  lemma ChangedStaysSound(w: World, disk: seq<Location>, pc: Pc, e: Event)
    requires (forall l :: 0 <= l < |disk| ==> IsSound(w, disk[l])) && IsPlaced(w, disk, pc)
    ensures forall l :: 0 <= l < |disk| ==> IsSound(w, Changed(disk, pc, e)[l])
    ensures OnlyGains(disk, Changed(disk, pc, e))
  {}

  lemma AdvancesPlaced(w: World, disk: seq<Location>, pc: Pc, e: Event)
    requires SaneSpaces(w.isSpace)
    requires (forall l :: 0 <= l < |disk| ==> IsSound(w, disk[l])) && IsPlaced(w, disk, pc)
    ensures IsPlaced(w, Changed(disk, pc, e), Advance(w, disk, pc, e))
  {
    if pc.WriteSidecar? {
      SidecarIsRead(w.isSpace, w.published, w.asset);
    }
  }

  lemma {:induction false} StepStaysSafe(w: World, s: System, i: nat, e: Event)
    requires SaneSpaces(w.isSpace) && Safe(w, s)
    ensures Safe(w, Step(w, s, i, e)) && OnlyGains(s.disk, Step(w, s, i, e).disk)
  {
    if i < |s.processes| {
      var pc, next := s.processes[i], Step(w, s, i, e);
      ChangedStaysSound(w, s.disk, pc, e);
      AdvancesPlaced(w, s.disk, pc, e);
      forall k | 0 <= k < |s.processes|
        ensures IsPlaced(w, next.disk, next.processes[k])
      {
        if k != i {
          StaysPlaced(w, s.disk, next.disk, s.processes[k]);
        }
      }
    }
  }

  lemma {:induction false} RunStaysSafe(w: World, s: System, turns: seq<Turn>, n: nat, m: nat)
    requires SaneSpaces(w.isSpace) && Safe(w, s) && n <= m <= |turns|
    ensures Safe(w, After(w, s, turns, n)) && Safe(w, After(w, s, turns, m))
    ensures OnlyGains(After(w, s, turns, n).disk, After(w, s, turns, m).disk)
    decreases n + m
  {
    if m > 0 {
      if n < m {
        RunStaysSafe(w, s, turns, n, m - 1);
        StepStaysSafe(w, After(w, s, turns, m - 1), turns[m - 1].process, turns[m - 1].event);
      } else {
        RunStaysSafe(w, s, turns, n - 1, n - 1);
        StepStaysSafe(w, After(w, s, turns, n - 1), turns[n - 1].process, turns[n - 1].event);
      }
    }
  }

  /**
   * However the processes are interleaved, and whichever fail or die: a
   * location is empty or holds bytes with the published digest, a sidecar
   * never exists without its binary, and every returned path passes the digest.
   */
  lemma EveryRunIsSafe(w: World, locations: nat, processes: nat, turns: seq<Turn>)
    requires SaneSpaces(w.isSpace)
    ensures var s := After(w, Empty(locations, processes), turns, |turns|);
            && (forall l :: 0 <= l < locations ==> IsSound(w, s.disk[l]))
            && (forall i :: 0 <= i < processes && s.processes[i].Returned? ==>
                  s.processes[i].at < locations && IsVerified(w, s.disk[s.processes[i].at])
                  && HasDigest(w, s.disk[s.processes[i].at].binary.value))
  {
    assert Safe(w, Empty(locations, processes));
    RunStaysSafe(w, Empty(locations, processes), turns, 0, |turns|);
  }

  /** Once a location is verified it stays so. */
  lemma VerifiedStaysVerified(w: World, s: System, turns: seq<Turn>, n: nat, l: nat)
    requires SaneSpaces(w.isSpace) && Safe(w, s) && n <= |turns| && l < |s.disk|
    requires IsVerified(w, After(w, s, turns, n).disk[l])
    ensures IsVerified(w, After(w, s, turns, |turns|).disk[l])
  {
    RunStaysSafe(w, s, turns, n, |turns|);
  }

  // ------------------------------------------------------------------ reuse

  /** The process is still looking, no further than location `v`, or has found one. */
  ghost predicate Reuses(pc: Pc, v: nat) {
    || ((pc.Look? || pc.LookSidecar? || pc.Returned?) && pc.at <= v)
    || pc.Killed?
  }

  /** A process that starts when a location is verified, and can read it, never downloads. */
  lemma {:induction false} VerifiedIsReused(w: World, s: System, turns: seq<Turn>, n: nat, i: nat, v: nat)
    requires SaneSpaces(w.isSpace) && Safe(w, s) && n <= |turns|
    requires i < |s.processes| && s.processes[i] == Look(0) && v < |s.disk| && IsVerified(w, s.disk[v])
    requires forall k :: 0 <= k < |turns| && turns[k].process == i ==> !turns[k].event.Throws?
    ensures Reuses(After(w, s, turns, n).processes[i], v)
  {
    if n > 0 {
      VerifiedIsReused(w, s, turns, n - 1, i, v);
      RunStaysSafe(w, s, turns, 0, n - 1);
    }
  }

  /** On its own, such a process returns within two steps for each location. */
  lemma {:induction false} ReuseIsPrompt(w: World, disk: seq<Location>, at: nat, v: nat)
    requires at <= v < |disk| && IsVerified(w, disk[v])
    ensures exists n: nat, l: nat :: n <= 2 * (v - at + 1) && at <= l <= v && IsVerified(w, disk[l]) && Alone(w, disk, Look(at), n) == Returned(l)
    decreases v - at
  {
    var next := Advance(w, disk, Look(at), Proceeds);
    if IsVerified(w, disk[at]) {
      assert Alone(w, disk, Returned(at), 0) == Returned(at);
      assert Alone(w, disk, LookSidecar(at), 1) == Returned(at);
      assert Alone(w, disk, Look(at), 2) == Returned(at);
    } else {
      ReuseIsPrompt(w, disk, at + 1, v);
      var n: nat, l: nat :| n <= 2 * (v - at) && at + 1 <= l <= v && IsVerified(w, disk[l]) && Alone(w, disk, Look(at + 1), n) == Returned(l);
      if disk[at].binary.Some? {
        assert Alone(w, disk, LookSidecar(at), n + 1) == Returned(l);
        assert Alone(w, disk, Look(at), n + 2) == Returned(l);
      } else {
        assert Alone(w, disk, Look(at), n + 1) == Returned(l);
      }
    }
  }

  /** A process after `n` steps alone. */
  function Alone(w: World, disk: seq<Location>, pc: Pc, n: nat): (r: Pc)
    decreases n
  {
    if n == 0 then pc else Alone(w, Changed(disk, pc, Proceeds), Advance(w, disk, pc, Proceeds), n - 1)
  }

  /** The turns of one process from the download of a location to its end, when nothing fails. */
  function CleanDownload(i: nat, bytes: Bytes): (turns: seq<Turn>) {
    [Turn(i, Proceeds), Turn(i, Proceeds), Turn(i, Receives(bytes)), Turn(i, Proceeds),
     Turn(i, Proceeds), Turn(i, Proceeds), Turn(i, Proceeds)]
  }

  /** The first three of them bring the bytes. */
  lemma {:induction false} CleanDownloadReceives(w: World, s: System, i: nat, at: nat, bytes: Bytes)
    requires ParseChecksum(w.isSpace, w.published).Some?
    requires i < |s.processes| && s.processes[i] == MakeDirectory(at) && at < |s.disk|
    ensures After(w, s, CleanDownload(i, bytes), 3).disk == s.disk
    ensures After(w, s, CleanDownload(i, bytes), 3).processes[i] == Check(at, bytes)
  {
    var turns := CleanDownload(i, bytes);
    assert After(w, s, turns, 0) == s;
    assert After(w, s, turns, 1).processes[i] == FetchChecksum(at) && After(w, s, turns, 1).disk == s.disk;
    assert After(w, s, turns, 2).processes[i] == Fetch(at) && After(w, s, turns, 2).disk == s.disk;
  }

  /** With the published bytes the next two put the binary in place. */
  lemma CleanDownloadPlaces(w: World, s: System, i: nat, at: nat, bytes: Bytes)
    requires HasDigest(w, bytes)
    requires i < |s.processes| && s.processes[i] == MakeDirectory(at) && at < |s.disk|
    ensures After(w, s, CleanDownload(i, bytes), 5).processes[i] == WriteSidecar(at)
    ensures After(w, s, CleanDownload(i, bytes), 5).disk[at].binary == Some(bytes)
  {
    var turns := CleanDownload(i, bytes);
    CleanDownloadReceives(w, s, i, at, bytes);
    assert After(w, s, turns, 4).processes[i] == Install(at, bytes);
  }

  /** The next writes the sidecar to be. */
  lemma CleanDownloadWrites(w: World, s: System, i: nat, at: nat, bytes: Bytes)
    requires SaneSpaces(w.isSpace) && HasDigest(w, bytes)
    requires i < |s.processes| && s.processes[i] == MakeDirectory(at) && at < |s.disk|
    ensures var after := After(w, s, CleanDownload(i, bytes), 6);
            && after.processes[i].InstallSidecar? && after.processes[i].at == at
            && ParseChecksum(w.isSpace, after.processes[i].text).Some?
            && after.disk[at].binary == Some(bytes)
  {
    CleanDownloadPlaces(w, s, i, at, bytes);
    SidecarIsRead(w.isSpace, w.published, w.asset);
  }

  /** Undisturbed, and with the published bytes, a download installs them. */
  lemma CleanDownloadInstalls(w: World, s: System, i: nat, at: nat, bytes: Bytes)
    requires SaneSpaces(w.isSpace) && HasDigest(w, bytes)
    requires i < |s.processes| && s.processes[i] == MakeDirectory(at) && at < |s.disk|
    ensures var after := After(w, s, CleanDownload(i, bytes), 7);
            after.processes[i] == Returned(at) && IsVerified(w, after.disk[at]) && after.disk[at].binary == Some(bytes)
  {
    CleanDownloadWrites(w, s, i, at, bytes);
  }

  /** Any other bytes are refused and nothing is installed. */
  lemma WrongBytesAreRefused(w: World, s: System, i: nat, at: nat, bytes: Bytes)
    requires ParseChecksum(w.isSpace, w.published).Some? && !HasDigest(w, bytes)
    requires i < |s.processes| && s.processes[i] == MakeDirectory(at) && at < |s.disk|
    ensures After(w, s, CleanDownload(i, bytes), 4).processes[i] == Failed
    ensures After(w, s, CleanDownload(i, bytes), 4).disk == s.disk
  {
    CleanDownloadReceives(w, s, i, at, bytes);
  }

  // ------------------------------------------------------- other locations

  /** The next location when there is one and permission was refused, and else the end. */
  predicate GoesOn(locations: nat, at: nat, permission: bool, next: Pc) {
    && (permission && at + 1 < locations ==> next == MakeDirectory(at + 1))
    && (!permission || at + 1 >= locations ==> next == Failed)
  }

  /** An error of the file system leaves a location for the next one only when permission was refused; one of the network ends it. */
  lemma ErrorsLeaveTheLocation(w: World, disk: seq<Location>, pc: Pc, permission: bool)
    requires !IsDone(pc) && !pc.Look? && pc.at < |disk|
    ensures pc.MakeDirectory? || pc.Fetch? || pc.WriteSidecar? ==> GoesOn(|disk|, pc.at, permission, Advance(w, disk, pc, Throws(permission)))
    ensures pc.FetchChecksum? ==> Advance(w, disk, pc, Throws(permission)) == Failed
    ensures pc.RenameFailed? && disk[pc.at].binary.None? ==> GoesOn(|disk|, pc.at, pc.permission, Advance(w, disk, pc, Proceeds))
    ensures pc.RenameFailedSidecar? && !HasChecksum(w, disk[pc.at]) ==> GoesOn(|disk|, pc.at, pc.permission, Advance(w, disk, pc, Proceeds))
    ensures pc.SidecarFailed? && disk[pc.at].sidecar.None? ==> GoesOn(|disk|, pc.at, pc.permission, Advance(w, disk, pc, Proceeds))
    ensures Changed(disk, pc, Throws(permission)) == disk
  {}

  /** The turns of a process that is refused as many directories. */
  function Refusals(i: nat, count: nat): (turns: seq<Turn>) {
    seq(count, _ => Turn(i, Throws(true)))
  }

  lemma {:induction false} RefusedGoesOn(w: World, s: System, i: nat, at: nat, count: nat, n: nat)
    requires i < |s.processes| && s.processes[i] == MakeDirectory(at) && n <= count && at + n < |s.disk|
    ensures var after := After(w, s, Refusals(i, count), n);
            after.disk == s.disk && after.processes[i] == MakeDirectory(at + n)
  {
    if n > 0 {
      RefusedGoesOn(w, s, i, at, count, n - 1);
      assert Refusals(i, count)[n - 1] == Turn(i, Throws(true));
    }
  }

  /** Refused any number of locations, a download installs at the first that takes it. */
  lemma DownloadFallsBack(w: World, s: System, i: nat, at: nat, count: nat, bytes: Bytes, refused: seq<Turn>, clean: seq<Turn>)
    requires SaneSpaces(w.isSpace) && HasDigest(w, bytes)
    requires i < |s.processes| && s.processes[i] == MakeDirectory(at) && at + count < |s.disk|
    requires refused == Refusals(i, count) && clean == CleanDownload(i, bytes)
    ensures var after := After(w, s, refused + clean, |refused + clean|);
            after.processes[i] == Returned(at + count) && IsVerified(w, after.disk[at + count])
  {
    RefusedGoesOn(w, s, i, at, count, count);
    CleanDownloadEnds(w, After(w, s, refused, |refused|), i, at + count, bytes, clean);
    AfterBoth(w, s, refused, clean, |clean|);
  }

  /** Refused every location, it fails. */
  lemma RefusedEverywhereFails(w: World, s: System, i: nat, at: nat, count: nat)
    requires i < |s.processes| && s.processes[i] == MakeDirectory(at) && at + count + 1 == |s.disk|
    ensures After(w, s, Refusals(i, count + 1), count + 1).processes[i] == Failed
  {
    RefusedGoesOn(w, s, i, at, count + 1, count);
    assert Refusals(i, count + 1)[count] == Turn(i, Throws(true));
  }

  /** A process that finds no verified location, looking from `at` on, downloads to the first location. */
  lemma {:induction false} NothingFoundDownloads(w: World, disk: seq<Location>, at: nat) returns (n: nat)
    requires at <= |disk| && disk != [] && forall l :: at <= l < |disk| ==> !IsVerified(w, disk[l])
    ensures n <= 2 * (|disk| - at) + 1 && Alone(w, disk, Look(at), n) == MakeDirectory(0)
    decreases |disk| - at
  {
    if at == |disk| {
      n := 1;
      assert Alone(w, disk, MakeDirectory(0), 0) == MakeDirectory(0);
    } else {
      assert !IsVerified(w, disk[at]);
      var more := NothingFoundDownloads(w, disk, at + 1);
      if disk[at].binary.Some? {
        assert Alone(w, disk, LookSidecar(at), more + 1) == MakeDirectory(0);
        n := more + 2;
      } else {
        n := more + 1;
      }
    }
  }

  /** A failed rename of the binary is forgiven when another process has installed and verified it. */
  lemma VerifiedBinaryIsTaken(w: World, disk: seq<Location>, at: nat, temporary: Bytes, permission: bool)
    requires at < |disk| && IsVerified(w, disk[at]) && HasDigest(w, temporary)
    ensures var failed := Advance(w, disk, Install(at, temporary), Throws(permission));
            Alone(w, disk, failed, 2) == WriteSidecar(at)
  {
    assert Alone(w, disk, WriteSidecar(at), 0) == WriteSidecar(at);
    assert Alone(w, disk, RenameFailedSidecar(at, permission), 1) == WriteSidecar(at);
  }

  // --------------------------------------------------- a failed sidecar rename

  /** The process has given up on the locations up to `at`, or is about to. */
  ghost predicate IsPast(pc: Pc, at: nat) {
    || ((pc.SidecarFailed? || pc.SidecarFailedNested?) && pc.at == at)
    || pc.Failed? || pc.Killed?
    || (!pc.Look? && !pc.LookSidecar? && pc.at > at)
  }

  lemma StaysPast(w: World, disk: seq<Location>, pc: Pc, e: Event, at: nat)
    requires IsPast(pc, at) && (at < |disk| ==> IsSound(w, disk[at]))
    ensures IsPast(Advance(w, disk, pc, e), at)
  {}

  /**
   * A process whose rename of the sidecar failed never returns that location,
   * whatever it and the others do from then on: not even when another process
   * has installed the very same sidecar.
   */
  lemma {:induction false} SidecarFallbackNeverHelps(w: World, s: System, turns: seq<Turn>, n: nat, i: nat, at: nat)
    requires SaneSpaces(w.isSpace) && Safe(w, s) && n <= |turns| && i < |s.processes| && IsPast(s.processes[i], at)
    ensures IsPast(After(w, s, turns, n).processes[i], at)
  {
    if n > 0 {
      SidecarFallbackNeverHelps(w, s, turns, n - 1, i, at);
      RunStaysSafe(w, s, turns, n - 1, n - 1);
      var before := After(w, s, turns, n - 1);
      StaysPast(w, before.disk, before.processes[i], turns[n - 1].event, at);
    }
  }

  /** The turns of a process that cannot rename its sidecar and looks for another's. */
  function FailedRename(i: nat): (turns: seq<Turn>) {
    [Turn(i, Throws(false)), Turn(i, Proceeds), Turn(i, Proceeds)]
  }

  /** It fails, and the location it gives up on is verified. */
  lemma FailsBesideVerified(w: World, s: System, i: nat, at: nat)
    requires i < |s.processes| && s.processes[i].InstallSidecar? && s.processes[i].at == at < |s.disk|
    requires IsVerified(w, s.disk[at]) && s.disk[at].nested.None?
    ensures var after := After(w, s, FailedRename(i), 3);
            after.processes[i] == Failed && after.disk == s.disk
    ensures After(w, s, FailedRename(i), 2).processes[i] == SidecarFailedNested(at, false)
  {
    var turns := FailedRename(i);
    assert After(w, s, turns, 0) == s;
    assert After(w, s, turns, 1).processes[i] == SidecarFailed(at, false) && After(w, s, turns, 1).disk == s.disk;
    assert After(w, s, turns, 2).processes[i] == SidecarFailedNested(at, false) && After(w, s, turns, 2).disk == s.disk;
  }

  lemma {:induction false} AfterBoth(w: World, s: System, x: seq<Turn>, y: seq<Turn>, n: nat)
    requires n <= |y|
    ensures After(w, s, x + y, |x| + n) == After(w, After(w, s, x, |x|), y, n)
  {
    if n == 0 {
      AfterPrefix(w, s, x, y, |x|);
    } else {
      AfterBoth(w, s, x, y, n - 1);
      assert (x + y)[|x| + n - 1] == y[n - 1];
    }
  }

  lemma {:induction false} AfterPrefix(w: World, s: System, x: seq<Turn>, y: seq<Turn>, n: nat)
    requires n <= |x|
    ensures After(w, s, x + y, n) == After(w, s, x, n)
  {
    if n > 0 {
      AfterPrefix(w, s, x, y, n - 1);
    }
  }

  /** Turns of one process leave the others where they are. */
  lemma {:induction false} OthersStay(w: World, s: System, turns: seq<Turn>, n: nat, j: nat)
    requires n <= |turns| && j < |s.processes| && forall k :: 0 <= k < n ==> turns[k].process != j
    ensures After(w, s, turns, n).processes[j] == s.processes[j]
  {
    if n > 0 {
      OthersStay(w, s, turns, n - 1, j);
    }
  }

  /** Both processes find nothing at the one location. */
  function BothLook(): (turns: seq<Turn>) {
    [Turn(0, Proceeds), Turn(0, Proceeds), Turn(1, Proceeds), Turn(1, Proceeds)]
  }

  lemma BothFindNothing(w: World)
    ensures var s := After(w, Empty(1, 2), BothLook(), |BothLook()|);
            s.disk == Empty(1, 2).disk && s.processes == [MakeDirectory(0), MakeDirectory(0)]
  {
    var s, turns := Empty(1, 2), BothLook();
    assert s.processes == [Look(0), Look(0)] && s.disk == [Location(None, None, None)];
    assert After(w, s, turns, 0) == s;
    assert After(w, s, turns, 1) == System(s.disk, [Look(1), Look(0)]);
    assert After(w, s, turns, 2) == System(s.disk, [MakeDirectory(0), Look(0)]);
    assert After(w, s, turns, 3) == System(s.disk, [MakeDirectory(0), Look(1)]);
  }

  /** Two processes download at once; the first installs everything, and the second then fails to rename its sidecar. */
  function Race(bytes: Bytes): (turns: seq<Turn>) {
    BothLook() + CleanDownload(0, bytes) + (CleanDownload(1, bytes)[..6] + FailedRename(1))
  }

  /** The same with the number of turns left open. */
  lemma CleanDownloadEnds(w: World, s: System, i: nat, at: nat, bytes: Bytes, turns: seq<Turn>)
    requires SaneSpaces(w.isSpace) && HasDigest(w, bytes) && turns == CleanDownload(i, bytes)
    requires i < |s.processes| && s.processes[i] == MakeDirectory(at) && at < |s.disk|
    ensures var after := After(w, s, turns, |turns|);
            after.processes[i] == Returned(at) && IsVerified(w, after.disk[at])
  {
    CleanDownloadInstalls(w, s, i, at, bytes);
  }

  lemma CleanDownloadStops(w: World, s: System, i: nat, at: nat, bytes: Bytes, turns: seq<Turn>)
    requires SaneSpaces(w.isSpace) && HasDigest(w, bytes) && turns == CleanDownload(i, bytes)[..6]
    requires i < |s.processes| && s.processes[i] == MakeDirectory(at) && at < |s.disk|
    ensures var after := After(w, s, turns, |turns|);
            after.processes[i].InstallSidecar? && after.processes[i].at == at
  {
    var all := CleanDownload(i, bytes);
    CleanDownloadWrites(w, s, i, at, bytes);
    assert all == turns + all[6..];
    AfterPrefix(w, s, turns, all[6..], 6);
  }

  lemma FailedRenameEnds(w: World, s: System, i: nat, at: nat, turns: seq<Turn>)
    requires turns == FailedRename(i)
    requires i < |s.processes| && s.processes[i].InstallSidecar? && s.processes[i].at == at < |s.disk|
    requires IsVerified(w, s.disk[at]) && s.disk[at].nested.None?
    ensures var after := After(w, s, turns, |turns|);
            after.processes[i] == Failed && after.disk == s.disk
  {
    FailsBesideVerified(w, s, i, at);
  }

  /** The second is about to rename its sidecar, and the location is verified already. */
  lemma SecondArrivesLate(w: World, s: System, turns: seq<Turn>, bytes: Bytes)
    requires SaneSpaces(w.isSpace) && HasDigest(w, bytes) && Safe(w, s) && |s.disk| == 1 && |s.processes| == 2
    requires s.processes[1] == MakeDirectory(0) && IsVerified(w, s.disk[0])
    requires turns == CleanDownload(1, bytes)[..6]
    ensures var late := After(w, s, turns, |turns|);
            && late.processes[1].InstallSidecar? && late.processes[1].at == 0
            && IsVerified(w, late.disk[0]) && late.disk[0].nested.None?
            && late.processes[0] == s.processes[0]
  {
    CleanDownloadStops(w, s, 1, 0, bytes, turns);
    VerifiedStaysVerified(w, s, turns, 0, 0);
    RunStaysSafe(w, s, turns, |turns|, |turns|);
    OthersStay(w, s, turns, |turns|, 0);
  }

  /** The first has installed everything, and the second has yet to begin. */
  lemma FirstInstalls(w: World, bytes: Bytes, look: seq<Turn>, download: seq<Turn>)
    requires SaneSpaces(w.isSpace) && HasDigest(w, bytes) && look == BothLook() && download == CleanDownload(0, bytes)
    ensures var s := After(w, Empty(1, 2), look + download, |look + download|);
            && Safe(w, s) && s.processes == [Returned(0), MakeDirectory(0)] && IsVerified(w, s.disk[0])
  {
    var start := Empty(1, 2);
    assert Safe(w, start);
    BothFindNothing(w);
    var s1 := After(w, start, look, |look|);
    CleanDownloadEnds(w, s1, 0, 0, bytes, download);
    OthersStay(w, s1, download, |download|, 1);
    AfterBoth(w, start, look, download, |download|);
    RunStaysSafe(w, start, look + download, |look + download|, |look + download|);
    var s := After(w, start, look + download, |look + download|);
    assert s.processes == [s.processes[0], s.processes[1]];
  }

  /** The second, from there. */
  lemma SecondFails(w: World, s: System, bytes: Bytes, until: seq<Turn>, rename: seq<Turn>)
    requires SaneSpaces(w.isSpace) && HasDigest(w, bytes) && Safe(w, s) && |s.disk| == 1
    requires s.processes == [Returned(0), MakeDirectory(0)] && IsVerified(w, s.disk[0])
    requires until == CleanDownload(1, bytes)[..6] && rename == FailedRename(1)
    ensures var end := After(w, s, until + rename, |until + rename|);
            end.processes == [Returned(0), Failed] && IsVerified(w, end.disk[0])
  {
    SecondArrivesLate(w, s, until, bytes);
    var late := After(w, s, until, |until|);
    FailedRenameEnds(w, late, 1, 0, rename);
    OthersStay(w, late, rename, |rename|, 0);
    AfterBoth(w, s, until, rename, |rename|);
    var end := After(w, s, until + rename, |until + rename|);
    assert end.processes == [end.processes[0], end.processes[1]];
  }

  /** A run from nothing in which that happens: the process fails though the binary is installed and verified. */
  lemma FallbackFailsInARace(w: World, bytes: Bytes)
    requires SaneSpaces(w.isSpace) && HasDigest(w, bytes)
    ensures var end := After(w, Empty(1, 2), Race(bytes), |Race(bytes)|);
            && end.processes == [Returned(0), Failed]
            && IsVerified(w, end.disk[0])
  {
    var look, download, until, rename := BothLook(), CleanDownload(0, bytes), CleanDownload(1, bytes)[..6], FailedRename(1);
    FirstInstalls(w, bytes, look, download);
    SecondFails(w, After(w, Empty(1, 2), look + download, |look + download|), bytes, until, rename);
    AfterBoth(w, Empty(1, 2), look + download, until + rename, |until + rename|);
  }
}
