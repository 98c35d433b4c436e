/** The receiver program that runs on the remote host. */
module WriteReceiver {
  import opened Common
  import Base64
  import Transfer
  import opened FileTree
  import opened Commit
  import opened QuietCommit
  import Comparison
  import opened Host

  datatype Failure =
    | Refused(why: Transfer.Rejection)
    | CallFailed
    | BadEncoding
    | WrongLength
    | WrongDigest
    | DestinationChanged

  class Receiver {
    const path: Path
    const expectedEncoded: nat
    const expectedBytes: nat
    const expectedSha: string
    const delimiter: string
    const sha256: seq<byte> -> string
    const host: Machine

    var encodedPath: Option<nat>
    var decodedPath: Option<nat>
    var destinationTmp: Option<Path>
    var actualBytes: Option<nat>
    var actualSha: Option<string>
    var committed: bool
    var replaceStarted: bool
    var mine: Option<Ino>              // the file behind the open descriptor

    // The history of the commit, as a run of its transition system.
    ghost var run: seq<State>
    ghost var published: bool
    ghost var rewritten: bool

    constructor (path: Path, expectedEncoded: nat, expectedBytes: nat, expectedSha: string, token: string,
                 sha256: seq<byte> -> string, host: Machine)
      ensures this.path == path && this.expectedEncoded == expectedEncoded && this.expectedBytes == expectedBytes
      ensures this.expectedSha == expectedSha && this.delimiter == Transfer.Delimiter(token)
      ensures this.sha256 == sha256 && this.host == host
      ensures Fresh()
    {
      this.path, this.expectedEncoded, this.expectedBytes := path, expectedEncoded, expectedBytes;
      this.expectedSha, this.delimiter := expectedSha, Transfer.Delimiter(token);
      this.sha256, this.host := sha256, host;
      encodedPath, decodedPath, destinationTmp, actualBytes, actualSha := None, None, None, None, None;
      committed, replaceStarted := false, false;
      run, mine, published, rewritten := [], None, false, false;
    }

    ghost predicate Fresh()
      reads this
    {
      && encodedPath.None? && decodedPath.None? && destinationTmp.None? && actualBytes.None? && actualSha.None?
      && !committed && !replaceStarted && run == [] && mine.None? && !published && !rewritten
      && delimiter != ""
    }

    /** The verdict that the specification gives on what the terminal will deliver. */
    ghost function Verdict(incoming: seq<string>): Transfer.Reception {
      Transfer.Receive(incoming, delimiter, expectedEncoded, "")
    }

    /** Reads the terminal until the delimiter, keeping only what could still begin one. */
    method ReceivePayload() returns (r: Result<string, Failure>)
      requires Fresh()
      modifies this`encodedPath, host`incoming, host`texts, host`echo, host`screen, host`loud
      ensures host.echo == old(host.echo)
      ensures encodedPath.None? ==> host.texts == old(host.texts)
      ensures encodedPath.Some? ==> encodedPath.value !in old(host.texts) && encodedPath.value in host.texts
      ensures encodedPath.Some? ==> host.texts - {encodedPath.value} == old(host.texts)
      ensures r.Ok? ==> encodedPath.Some? && host.texts[encodedPath.value] == r.value
      ensures r.Ok? ==> Verdict(old(host.incoming)) == Transfer.Accepted(r.value)
      ensures r.Ok? ==> host.screen == old(host.screen) + [Ready]
      ensures r.Err? ==> r.error.CallFailed? || r.error.Refused?
      ensures r.Err? && r.error.Refused? ==> Verdict(old(host.incoming)) == Transfer.Rejected(r.error.why)
      ensures host.quiet ==> r != Err(CallFailed)
      ensures || (host.screen == old(host.screen) && host.loud == old(host.loud))
              || (host.screen == old(host.screen) + [Ready] && host.loud == old(host.loud) + [false])
    {
      var before := host.echo;
      var fails := host.CallFails();
      if fails { return Err(CallFailed); }
      var file := host.NewText();
      encodedPath := Some(file);
      fails := host.CallFails();
      if fails { return Err(CallFailed); }
      host.echo := false;
      host.Print(Ready);
      var written;
      r, written := ReadUntilDelimiter();
      host.texts := host.texts[file := written];
      host.echo := before;
    }

    method ReadUntilDelimiter() returns (r: Result<string, Failure>, written: string)
      requires delimiter != ""
      modifies host`incoming
      ensures r.Ok? ==> Verdict(old(host.incoming)) == Transfer.Accepted(r.value) && written == r.value
      ensures r.Err? ==> r.error.CallFailed? || r.error.Refused?
      ensures r.Err? && r.error.Refused? ==> Verdict(old(host.incoming)) == Transfer.Rejected(r.error.why)
      ensures host.quiet ==> r != Err(CallFailed)
    {
      hide Find, FindFrom, OccursAt, Contains;
      var pending, received := "", 0;
      written := "";
      ghost var consumed := "";
      Transfer.NothingFound(delimiter);
      while true
        invariant written + pending == consumed && received == |written|
        invariant |pending| == Min(|consumed|, |delimiter| - 1)
        invariant Find(consumed, delimiter).None?
        invariant Verdict(old(host.incoming)) ==
                  Transfer.Receive(host.incoming, delimiter, expectedEncoded, consumed)
        decreases |host.incoming|
      {
        var fails := host.CallFails();
        if fails { return Err(CallFailed), written; }
        var part := host.ReadTerminal();
        if part == "" {
          return Err(Refused(Transfer.EndOfInput)), written;
        }
        Transfer.PendingSearch(consumed, pending, part, delimiter);
        Associates(written, pending, part);
        consumed := consumed + part;
        pending := pending + part;
        var delimiterAt := Find(pending, delimiter);
        fails := host.CallFails();
        if fails { return Err(CallFailed), written; }
        if delimiterAt.Some? {
          Transfer.LongEnough(pending, delimiter, delimiterAt.value);
          var trailing := pending[delimiterAt.value + |delimiter|..];
          PrefixOfSum(written, pending, delimiterAt.value);
          written := written + pending[..delimiterAt.value];
          received := received + delimiterAt.value;
          if trailing != "" {
            return Err(Refused(Transfer.TrailingBytes)), written;
          }
          break;
        }
        var flush := |pending| - |delimiter| + 1;
        if flush > 0 {
          Associates(written, pending[..flush], pending[flush..]);
          Rejoins(pending, flush);
          written := written + pending[..flush];
          received := received + flush;
          pending := pending[flush..];
        }
        if received + |pending| > expectedEncoded + Transfer.READ_LIMIT {
          return Err(Refused(Transfer.TooLong)), written;
        }
      }
      r := if received != expectedEncoded then Err(Refused(Transfer.LengthMismatch)) else Ok(written);
    }

    /** Decodes the received file block by block. */
    method DecodeFile(encoded: string) returns (r: Result<seq<byte>, Failure>)
      ensures r.Ok? ==> Transfer.DecodesTo(encoded, r.value)
      ensures r.Err? ==> r.error.CallFailed? || r.error.BadEncoding?
      ensures r.Err? && r.error.BadEncoding? ==> Transfer.DecodeBlocks(encoded).None?
      ensures host.quiet ==> r != Err(CallFailed)
    {
      hide Base64.Decode, Transfer.Blocks, Transfer.DecodeParts, Transfer.DecodeBlocks, Transfer.Prepend;
      var target: seq<byte> := [];
      var position, carry := 0, "";
      assert encoded[0..] == encoded;
      Transfer.NothingDecoded(encoded);
      while position < |encoded|
        invariant 0 <= position <= |encoded|
        invariant Transfer.DecodeBlocks(encoded) ==
                    Transfer.Prepend(target, Transfer.DecodeParts(Transfer.Blocks(encoded[position..]), carry))
      {
        var rest := encoded[position..];
        var part := rest[..Min(Transfer.READ_LIMIT, |rest|)];
        var fails := host.CallFails();
        if fails { return Err(CallFailed); }
        var block := carry + part;
        var usable := Transfer.Usable(block);
        var decoded := Base64.Decode(block[..usable]);
        Transfer.BlockDecoded(Transfer.DecodeBlocks(encoded), target, carry, rest);
        if decoded.None? {
          return Err(BadEncoding);
        }
        target := target + decoded.value;
        carry := block[usable..];
        position := position + |part|;
        assert encoded[position..] == rest[|part|..];
      }
      assert encoded[position..] == "";
      Transfer.AllDecoded(target, carry);
      r := if carry != "" then Err(BadEncoding) else Ok(target);
    }

    /** Decodes, and compares length and digest with what the client announced. */
    method VerifyPayload(encoded: string) returns (r: Result<seq<byte>, Failure>)
      requires decodedPath.None?
      modifies this`decodedPath, this`actualBytes, this`actualSha, host`datas
      ensures decodedPath.None? ==> host.datas == old(host.datas)
      ensures decodedPath.Some? ==> decodedPath.value !in old(host.datas)
      ensures decodedPath.Some? ==>
                decodedPath.value in host.datas && host.datas - {decodedPath.value} == old(host.datas)
      ensures r.Ok? ==> decodedPath.Some? && host.datas[decodedPath.value] == r.value
      ensures r.Ok? ==> Transfer.DecodesTo(encoded, r.value)
      ensures r.Ok? ==> actualBytes == Some(expectedBytes) && |r.value| == expectedBytes
      ensures r.Ok? ==> actualSha == Some(expectedSha) && sha256(r.value) == expectedSha
      ensures host.quiet && r.Err? ==> match Transfer.DecodeBlocks(encoded)
              case None => true
              case Some(data) => |data| != expectedBytes || sha256(data) != expectedSha
    {
      hide Transfer.DecodeBlocks;
      var fails := host.CallFails();
      if fails { return Err(CallFailed); }
      var file := host.NewData();
      decodedPath := Some(file);
      actualBytes := Some(0);
      r := DecodeFile(encoded);
      if r.Err? { return; }
      host.datas := host.datas[file := r.value];
      actualBytes := Some(|r.value|);
      actualSha := Some(sha256(r.value));
      if |r.value| != expectedBytes { return Err(WrongLength); }
      if sha256(r.value) != expectedSha { return Err(WrongDigest); }
    }

    // -------------------------------------------------------------------------
    // The commit.  Every method extends `run`, which records each call of the receiver and
    // each change by others as a step of the transition system.

    ghost function JobFor(payload: seq<byte>): Job {
      Job(path, payload, host.umask)
    }

    ghost function Now(pc: Pc, snap: Snapshot, mode: Mode, copied: nat): State
      reads this, host
    {
      State(host.fs, pc, snap, mode, destinationTmp, mine, copied, committed, replaceStarted, published, rewritten)
    }

    /** The run so far leads to the present state. */
    ghost predicate Reached(payload: seq<byte>, now: State)
      reads this
    {
      run != [] && Run(JobFor(payload), run) && run[|run| - 1] == now
    }

    /** ... and as long as nothing fails on a quiet host it consists of own steps only. */
    ghost predicate Tracks(payload: seq<byte>, now: State)
      reads this
    {
      Reached(payload, now) && (host.quiet ==> QuietRun(JobFor(payload), run))
    }

    /** The receiver's call succeeded. */
    ghost method Did(payload: seq<byte>, now: State, next: State)
      requires Tracks(payload, now) && Act(JobFor(payload), now, next)
      modifies this`run
      ensures Tracks(payload, next) && old(run) < run && run[0] == old(run[0])
    {
      hide Act;
      run := run + [next];
    }

    /** The receiver's call raised, or its answer ended the commit. */
    ghost method GaveUp(payload: seq<byte>, now: State, next: State)
      requires Tracks(payload, now) && Own(JobFor(payload), now, next)
      modifies this`run
      ensures Reached(payload, next) && old(run) < run && run[0] == old(run[0])
    {
      hide Own;
      run := run + [next];
    }

    lemma Sound(payload: seq<byte>, now: State)
      requires Reached(payload, now)
      ensures Inv(JobFor(payload), now) && WellFormed(now.fs)
    {
      RunInv(JobFor(payload), run, |run| - 1);
    }

    /** Others run, out of reach of the private name. */
    method Interfere(ghost payload: seq<byte>, ghost pc: Pc, ghost snap: Snapshot, ghost mode: Mode, ghost copied: nat)
      requires Tracks(payload, Now(pc, snap, mode, copied))
      modifies host`fs, this`run, this`rewritten
      ensures Tracks(payload, Now(pc, snap, mode, copied))
      ensures old(run) <= run && run[0] == old(run[0])
    {
      hide Inv, Run, QuietRun, Foreign, Realpath;
      ghost var now := Now(pc, snap, mode, copied);
      Sound(payload, now);
      var hidden := if destinationTmp.Some? then {destinationTmp.value} else {};
      host.OthersAct(hidden);
      if host.fs != now.fs {
        rewritten := rewritten || (published && Rewrote(now, now.(fs := host.fs)));
        OthersDid(payload, now, Now(pc, snap, mode, copied));
      }
    }

    ghost method OthersDid(payload: seq<byte>, now: State, next: State)
      requires Tracks(payload, now) && Others(now, next) && !host.quiet
      modifies this`run
      ensures Tracks(payload, next) && old(run) < run && run[0] == old(run[0])
    {
      hide Others;
      run := run + [next];
    }

    method DestinationSnapshot(ghost payload: seq<byte>) returns (r: Result<Snapshot, Failure>)
      requires Tracks(payload, Now(Lstat, Missing, 0, 0))
      modifies host`fs, this`run, this`rewritten
      ensures r.Ok? ==> Tracks(payload, Now(MkDirs, r.value, 0, 0))
      ensures r.Err? ==> Reached(payload, Now(Cleanup(false), Missing, 0, 0))
      ensures old(run) < run && run[0] == old(run[0])
      ensures host.quiet && r.Err? ==> !Placeable(JobFor(payload), run[0].fs)
    {
      hide Inv, Realpath, Foreign, QuietRun, Run, MakeDirs, Stat, Others, Create, Bind, Unbind, Write, Public,
        ThroughFile, IsDirectory, EntryMatches, RealMatches, LinkMatches, Placeable, NewFileMode, Permissions;
      Interfere(payload, Lstat, Missing, 0, 0);
      ghost var now := Now(Lstat, Missing, 0, 0);
      Sound(payload, now);
      if host.quiet { QuietSoFar(payload, now); }
      var fails := host.CallFails();
      if fails || ThroughFile(host.fs, Parent(path)) {
        GaveUp(payload, now, Fail(now));
        return Err(CallFailed);
      }
      if path !in host.fs.names {
        Did(payload, now, Now(MkDirs, Missing, 0, 0));
        return Ok(Missing);
      }
      var id := host.fs.names[path];
      if !IsLink(host.fs, path) {
        Did(payload, now, Now(MkDirs, Entry(id), 0, 0));
        return Ok(Entry(id));
      }
      Did(payload, now, Now(ReadLink(id), Missing, 0, 0));
      r := SnapshotLink(payload, id);
    }

    method SnapshotLink(ghost payload: seq<byte>, id: Ino) returns (r: Result<Snapshot, Failure>)
      requires Tracks(payload, Now(ReadLink(id), Missing, 0, 0))
      modifies host`fs, this`run, this`rewritten
      ensures r.Ok? ==> Tracks(payload, Now(MkDirs, r.value, 0, 0))
      ensures r.Err? ==> Reached(payload, Now(Cleanup(false), Missing, 0, 0))
      ensures old(run) < run && run[0] == old(run[0])
      ensures host.quiet ==> r.Ok?
    {
      hide Inv, Realpath, Foreign, QuietRun, Run, MakeDirs, Stat, Others, Create, Bind, Unbind, Write, Public;
      Interfere(payload, ReadLink(id), Missing, 0, 0);
      ghost var now := Now(ReadLink(id), Missing, 0, 0);
      if host.quiet { QuietLink(payload, now); }
      var fails := host.CallFails();
      if fails || !IsLink(host.fs, path) {
        GaveUp(payload, now, Fail(now));
        return Err(CallFailed);
      }
      var text := LinkText(host.fs, path);
      Did(payload, now, Now(RealPath(id, text), Missing, 0, 0));
      Interfere(payload, RealPath(id, text), Missing, 0, 0);
      now := Now(RealPath(id, text), Missing, 0, 0);
      fails := host.CallFails();
      if fails {
        GaveUp(payload, now, Fail(now));
        return Err(CallFailed);
      }
      var snap := Link(id, text, Realpath(host.fs, path));
      Did(payload, now, Now(MkDirs, snap, 0, 0));
      r := Ok(snap);
    }

    /** Compares the destination's entry with the snapshot, before (`again` false) or after
        the replacement.  The run moves on to the publication, or gives up. */
    method DestinationMatches(ghost payload: seq<byte>, snap: Snapshot, ghost mode: Mode, ghost copied: nat,
                              again: bool)
      returns (r: Result<bool, Failure>)
      requires Tracks(payload, Now(if again then RecheckLstat else CheckLstat, snap, mode, copied))
      modifies host`fs, this`run, this`rewritten
      ensures r == Ok(true) ==> Tracks(payload, Now(if again then Cleanup(true) else Publish, snap, mode, copied))
      ensures r != Ok(true) ==> Reached(payload, Now(Cleanup(false), snap, mode, copied))
      ensures old(run) < run && run[0] == old(run[0])
      ensures host.quiet ==> r == Ok(true)
    {
      hide Inv, Realpath, Foreign, QuietRun, Run, MakeDirs, Stat, Others, Create, Bind, Unbind, Write, Public;
      ghost var j := JobFor(payload);
      ghost var pc := if again then RecheckLstat else CheckLstat;
      Interfere(payload, pc, snap, mode, copied);
      ghost var now := Now(pc, snap, mode, copied);
      if host.quiet { QuietMatches(payload, now); }
      var fails := host.CallFails();
      if fails {
        GaveUp(payload, now, Fail(now));
        return Err(CallFailed);
      }
      var same := if path !in host.fs.names then Some(snap.Missing?)
                  else if snap.Missing? then Some(false)
                  else if host.fs.names[path] != snap.id then Some(false)
                  else if snap.Link? then if IsLink(host.fs, path) then None else Some(false)
                  else Some(!IsLink(host.fs, path));
      assert same == EntryMatches(j, now);
      if same == Some(false) {
        GaveUp(payload, now, Now(Cleanup(false), snap, mode, copied));
        return Ok(false);
      } else if same == Some(true) {
        Did(payload, now, Now(if again then Cleanup(true) else Publish, snap, mode, copied));
        return Ok(true);
      }
      Did(payload, now, Now(if again then RecheckLink else CheckLink, snap, mode, copied));
      r := LinkStillMatches(payload, snap, mode, copied, again);
    }

    method LinkStillMatches(ghost payload: seq<byte>, snap: Snapshot, ghost mode: Mode, ghost copied: nat,
                            again: bool)
      returns (r: Result<bool, Failure>)
      requires snap.Link?
      requires Tracks(payload, Now(if again then RecheckLink else CheckLink, snap, mode, copied))
      modifies host`fs, this`run, this`rewritten
      ensures r == Ok(true) ==> Tracks(payload, Now(if again then Cleanup(true) else Publish, snap, mode, copied))
      ensures r != Ok(true) ==> Reached(payload, Now(Cleanup(false), snap, mode, copied))
      ensures old(run) < run && run[0] == old(run[0])
      ensures host.quiet ==> r == Ok(true)
    {
      hide Inv, Realpath, Foreign, QuietRun, Run, MakeDirs, Stat, Others, Create, Bind, Unbind, Write, Public;
      ghost var pc := if again then RecheckLink else CheckLink;
      Interfere(payload, pc, snap, mode, copied);
      ghost var now := Now(pc, snap, mode, copied);
      if host.quiet { QuietMatches(payload, now); }
      var fails := host.CallFails();
      if fails || !IsLink(host.fs, path) {
        GaveUp(payload, now, Fail(now));
        return Err(CallFailed);
      } else if LinkText(host.fs, path) != snap.text {
        GaveUp(payload, now, Fail(now));
        return Ok(false);
      }
      Did(payload, now, Now(if again then RecheckReal else CheckReal, snap, mode, copied));
      r := StillResolvesTo(payload, snap, mode, copied, again);
    }

    method StillResolvesTo(ghost payload: seq<byte>, snap: Snapshot, ghost mode: Mode, ghost copied: nat,
                           again: bool)
      returns (r: Result<bool, Failure>)
      requires snap.Link?
      requires Tracks(payload, Now(if again then RecheckReal else CheckReal, snap, mode, copied))
      modifies host`fs, this`run, this`rewritten
      ensures r == Ok(true) ==> Tracks(payload, Now(if again then Cleanup(true) else Publish, snap, mode, copied))
      ensures r != Ok(true) ==> Reached(payload, Now(Cleanup(false), snap, mode, copied))
      ensures old(run) < run && run[0] == old(run[0])
      ensures host.quiet ==> r == Ok(true)
    {
      hide Inv, Realpath, Foreign, QuietRun, Run, MakeDirs, Stat, Others, Create, Bind, Unbind, Write, Public;
      ghost var pc := if again then RecheckReal else CheckReal;
      Interfere(payload, pc, snap, mode, copied);
      ghost var now := Now(pc, snap, mode, copied);
      if host.quiet { QuietMatches(payload, now); }
      var fails := host.CallFails();
      if fails {
        GaveUp(payload, now, Fail(now));
        return Err(CallFailed);
      } else if Realpath(host.fs, path) != snap.destination {
        GaveUp(payload, now, Fail(now));
        return Ok(false);
      }
      Did(payload, now, Now(if again then Cleanup(true) else Publish, snap, mode, copied));
      r := Ok(true);
    }

    lemma QuietLink(payload: seq<byte>, now: State)
      requires Tracks(payload, now) && host.quiet && now.pc.ReadLink?
      ensures IsLink(now.fs, path)
    {
      QuietRunInv(JobFor(payload), run, |run| - 1);
    }

    lemma QuietMatches(payload: seq<byte>, now: State)
      requires Tracks(payload, now) && host.quiet && (Checking(now.pc) || Rechecking(now.pc))
      ensures EntryMatches(JobFor(payload), now) == (if now.snap.Link? then None else Some(true))
      ensures now.snap.Link? ==> LinkMatches(JobFor(payload), now) && RealMatches(JobFor(payload), now)
    {
      QuietRunInv(JobFor(payload), run, |run| - 1);
      QuietMatch(JobFor(payload), run[0].fs, now);
    }

    lemma QuietSoFar(payload: seq<byte>, now: State)
      requires Tracks(payload, now) && host.quiet && (now.pc.Lstat? || now.pc.MkDirs?)
      ensures var directory := Parent(if now.pc.Lstat? then path else Target(JobFor(payload), now));
              ThroughFile(now.fs, directory) ==> !Placeable(JobFor(payload), run[0].fs)
    {
      QuietRunInv(JobFor(payload), run, |run| - 1);
      FoundOutBy(JobFor(payload), run, |run| - 1);
    }

    lemma RootIsNoFile(fs: Fs)
      ensures !ThroughFile(fs, [])
    {
    }

    /** The receiver is about to clean up, having failed. */
    ghost predicate Stopped(payload: seq<byte>)
      reads this, host
    {
      && run != [] && Run(JobFor(payload), run)
      && var s := run[|run| - 1];
         s.pc == Cleanup(false) && s == Now(s.pc, s.snap, s.mode, s.copied)
    }

    method MakeDirectories(ghost payload: seq<byte>, snap: Snapshot, destination: Path)
      returns (r: Result<(), Failure>)
      requires Tracks(payload, Now(MkDirs, snap, 0, 0))
      requires destination == Destination(JobFor(payload), snap)
      modifies host`fs, this`run, this`rewritten
      ensures r.Ok? ==> Tracks(payload, Now(StatMode, snap, 0, 0))
      ensures r.Err? ==> Stopped(payload)
      ensures old(run) < run && run[0] == old(run[0])
      ensures host.quiet && r.Err? ==> !Placeable(JobFor(payload), run[0].fs)
    {
      hide Inv, Realpath, Foreign, QuietRun, Run, MakeDirs, ThroughFile, IsDirectory, Placeable;
      Interfere(payload, MkDirs, snap, 0, 0);
      ghost var now := Now(MkDirs, snap, 0, 0);
      if host.quiet { QuietSoFar(payload, now); }
      var directory := Parent(destination);
      var fails := host.CallFails();
      if fails || ThroughFile(host.fs, directory) {
        var wish: int := *;
        var made := if 0 <= wish <= |directory| && !ThroughFile(host.fs, directory[..wish]) then wish else 0;
        assert directory[..0] == [] && !ThroughFile(host.fs, []) by { RootIsNoFile(host.fs); }
        host.fs := MakeDirs(host.fs, directory[..made]);
        GaveUp(payload, now, Now(Cleanup(false), snap, 0, 0));
        return Err(CallFailed);
      }
      host.fs := MakeDirs(host.fs, directory);
      Did(payload, now, Now(StatMode, snap, 0, 0));
      r := Ok(());
    }

    method ModeOf(ghost payload: seq<byte>, snap: Snapshot, destination: Path) returns (r: Result<Mode, Failure>)
      requires Tracks(payload, Now(StatMode, snap, 0, 0))
      requires destination == Destination(JobFor(payload), snap)
      modifies host`fs, this`run, this`rewritten
      ensures r.Ok? ==> Tracks(payload, Now(MkTemp, snap, r.value, 0))
      ensures r.Err? ==> Stopped(payload)
      ensures old(run) < run && run[0] == old(run[0])
      ensures host.quiet && r.Err? ==> IsLink(run[0].fs, Resolved(JobFor(payload), run[0].fs))
    {
      hide Inv, Realpath, Foreign, QuietRun, Run;
      Interfere(payload, StatMode, snap, 0, 0);
      ghost var now := Now(StatMode, snap, 0, 0);
      if host.quiet { QuietMode(payload, now); }
      var fails := host.CallFails();
      var found := Stat(host.fs, destination);
      if fails || found.Loop? {
        GaveUp(payload, now, Fail(now));
        return Err(CallFailed);
      }
      var mode := if found.Found? then Permissions(found.node) else NewFileMode(host.umask);
      Did(payload, now, Now(MkTemp, snap, mode, 0));
      r := Ok(mode);
    }

    lemma QuietMode(payload: seq<byte>, now: State)
      requires Tracks(payload, now) && host.quiet && now.pc.StatMode?
      ensures var j := JobFor(payload);
        !IsLink(run[0].fs, Resolved(j, run[0].fs)) ==> !Stat(now.fs, Target(j, now)).Loop?
    {
      var j := JobFor(payload);
      QuietRunInv(j, run, |run| - 1);
      if !IsLink(run[0].fs, Resolved(j, run[0].fs)) {
        StillResolves(j, run[0].fs, now);
      }
    }

    /** `mkstemp` picks a name that nothing has, beside the destination. */
    method MakeTemp(ghost payload: seq<byte>, snap: Snapshot, ghost mode: Mode, destination: Path)
      returns (r: Result<(), Failure>)
      requires Tracks(payload, Now(MkTemp, snap, mode, 0))
      requires destination == Destination(JobFor(payload), snap)
      modifies host`fs, this`run, this`rewritten, this`destinationTmp, this`mine
      ensures r.Ok? ==> Tracks(payload, Now(Copy, snap, mode, 0))
      ensures r.Err? ==> Stopped(payload)
      ensures old(run) < run && run[0] == old(run[0])
      ensures host.quiet ==> r.Ok?
    {
      hide Inv, Realpath, Foreign, QuietRun, Run, MakeDirs, Stat, Others, Bind, Unbind, Write, Public, EntryMatches,
        Act, Own, Create;
      Interfere(payload, MkTemp, snap, mode, 0);
      ghost var now := Now(MkTemp, snap, mode, 0);
      Sound(payload, now);
      assert destinationTmp.None? by { NothingYet(JobFor(payload), now); }
      var fails := host.CallFails();
      if fails {
        Commit.CallFails(JobFor(payload), now);
        GaveUp(payload, now, Fail(now));
        return Err(CallFailed);
      }
      var name := UnusedName(Parent(destination), host.fs.names.Keys + {path, destination});
      OpenTemp(payload, snap, mode, name);
      r := Ok(());
    }

    /** The file is made, empty and readable by its owner only. */
    method OpenTemp(ghost payload: seq<byte>, ghost snap: Snapshot, ghost mode: Mode, name: Path)
      requires Tracks(payload, Now(MkTemp, snap, mode, 0)) && name !in host.fs.names
      requires name != path
      requires var target := Target(JobFor(payload), Now(MkTemp, snap, mode, 0));
               Parent(name) == Parent(target) && name != target
      modifies host`fs, this`run, this`destinationTmp, this`mine
      ensures Tracks(payload, Now(Copy, snap, mode, 0)) && old(run) < run && run[0] == old(run[0])
    {
      hide Inv, Realpath, Foreign, QuietRun, Run, MakeDirs, Stat, Others, Bind, Unbind, Write, Public, EntryMatches,
        Act, Own, Create, Target, Parent;
      ghost var now := Now(MkTemp, snap, mode, 0);
      MkTempActs(JobFor(payload), now, name);
      destinationTmp := Some(name);
      mine := Some(host.fs.next);
      host.fs := Create(host.fs, name, File([], 0x0180));
      Did(payload, now, Now(Copy, snap, mode, 0));
    }

    /** Copies the payload piece by piece, then gives the file its final mode. */
    method FillTemp(payload: seq<byte>, ghost snap: Snapshot, mode: Mode)
      returns (r: Result<(), Failure>, ghost copied: nat)
      requires Tracks(payload, Now(Copy, snap, mode, 0)) && mine.Some?
      modifies host`fs, this`run, this`rewritten
      ensures r.Ok? ==> Tracks(payload, Now(CheckLstat, snap, mode, copied))
      ensures r.Err? ==> Stopped(payload)
      ensures old(run) < run && run[0] == old(run[0])
      ensures host.quiet ==> r.Ok?
    {
      hide Inv, Realpath, Foreign, QuietRun, Run, MakeDirs, Stat, Others, Bind, Unbind, Create, Public, EntryMatches;
      var done := 0;
      copied := 0;
      ghost var start := run;
      while done < |payload|
        invariant 0 <= done <= |payload| && copied == done
        invariant Tracks(payload, Now(Copy, snap, mode, copied))
        invariant start <= run
      {
        Interfere(payload, Copy, snap, mode, copied);
        var fails := host.CallFails();
        if fails {
          GaveUp(payload, Now(Copy, snap, mode, copied), Now(Cleanup(false), snap, mode, copied));
          return Err(CallFailed), copied;
        }
        ghost var now := Now(Copy, snap, mode, copied);
        done := Min(done + COPY_LENGTH, |payload|);
        copied := done;
        WriteTemp(File(payload[..done], 0x0180));
        Did(payload, now, Now(Copy, snap, mode, copied));
      }
      ghost var now := Now(Copy, snap, mode, copied);
      Did(payload, now, Now(Seal, snap, mode, copied));
      r := SealTemp(payload, snap, mode, copied);
    }

    method SealTemp(payload: seq<byte>, ghost snap: Snapshot, mode: Mode, ghost copied: nat)
      returns (r: Result<(), Failure>)
      requires Tracks(payload, Now(Seal, snap, mode, copied)) && mine.Some?
      modifies host`fs, this`run, this`rewritten
      ensures r.Ok? ==> Tracks(payload, Now(CheckLstat, snap, mode, copied))
      ensures r.Err? ==> Stopped(payload)
      ensures old(run) < run && run[0] == old(run[0])
      ensures host.quiet ==> r.Ok?
    {
      hide Inv, Realpath, Foreign, QuietRun, Run, MakeDirs, Stat, Others, Bind, Unbind, Create, Public, EntryMatches;
      Interfere(payload, Seal, snap, mode, copied);
      ghost var now := Now(Seal, snap, mode, copied);
      var fails := host.CallFails();
      if fails {
        GaveUp(payload, now, Fail(now));
        return Err(CallFailed);
      }
      WriteTemp(File(payload, mode));
      Did(payload, now, Now(CheckLstat, snap, mode, copied));
      r := Ok(());
    }

    /** Writes through the descriptor of the temporary file. */
    method WriteTemp(node: Node)
      requires mine.Some?
      modifies host`fs
      ensures host.fs == Write(old(host.fs), mine.value, node)
    {
      host.fs := Write(host.fs, mine.value, node);
    }

    /** Nothing was there: a link, which never overwrites, and then the private name goes. */
    method LinkTemp(ghost payload: seq<byte>, ghost mode: Mode, ghost copied: nat) returns (r: Result<(), Failure>)
      requires Tracks(payload, Now(Publish, Missing, mode, copied)) && mine.Some? && destinationTmp.Some?
      modifies host`fs, this`run, this`rewritten, this`destinationTmp, this`committed, this`replaceStarted,
               this`published
      ensures r.Ok? ==> Tracks(payload, Now(Cleanup(true), Missing, mode, copied))
      ensures r.Err? ==> Stopped(payload)
      ensures old(run) < run && run[0] == old(run[0])
      ensures host.quiet ==> r.Ok?
    {
      hide Inv, Realpath, Foreign, QuietRun, Run, MakeDirs, Stat, Others, Create, Public, EntryMatches, Write,
        LinkMatches, RealMatches, NewFileMode, Permissions, IsLink, Act, Own, Bind, Unbind;
      Interfere(payload, Publish, Missing, mode, copied);
      ghost var now := Now(Publish, Missing, mode, copied);
      if host.quiet { QuietPublication(payload, now); }
      var fails := host.CallFails();
      if fails || path in host.fs.names {
        assert !replaceStarted by { Sound(payload, now); NotYetPublished(JobFor(payload), now); }
        PublishGaveUp(payload, now, Fail(now));
        return Err(CallFailed);
      }
      LinkOver(payload, mode, copied);
      r := DropTempName(payload, Missing, mode, copied);
    }

    /** The link itself, and the flag that remembers it. */
    method LinkOver(ghost payload: seq<byte>, ghost mode: Mode, ghost copied: nat)
      requires Tracks(payload, Now(Publish, Missing, mode, copied)) && mine.Some? && destinationTmp.Some?
      requires path !in host.fs.names
      modifies host`fs, this`run, this`replaceStarted, this`published
      ensures Tracks(payload, Now(DropTemp, Missing, mode, copied)) && old(run) < run && run[0] == old(run[0])
    {
      hide Inv, Realpath, Foreign, QuietRun, Run, MakeDirs, Stat, Others, Create, Public, EntryMatches, Write,
        LinkMatches, RealMatches, NewFileMode, Permissions, IsLink, Act, Own, Bind, Unbind;
      ghost var now := Now(Publish, Missing, mode, copied);
      LinkActs(JobFor(payload), now);
      host.fs := Bind(host.fs, path, mine.value);
      replaceStarted, published := true, true;
      Did(payload, now, Now(DropTemp, Missing, mode, copied));
    }

    /** Something was there: a rename over it. */
    method ReplaceTemp(ghost payload: seq<byte>, snap: Snapshot, ghost mode: Mode, ghost copied: nat)
      returns (r: Result<(), Failure>)
      requires Tracks(payload, Now(Publish, snap, mode, copied)) && mine.Some? && destinationTmp.Some?
      requires !snap.Missing?
      modifies host`fs, this`run, this`rewritten, this`destinationTmp, this`committed, this`replaceStarted,
               this`published
      ensures r.Ok? ==> Tracks(payload, Now(if snap.Link? then RecheckLstat else Cleanup(true), snap, mode, copied))
      ensures r.Err? ==> Stopped(payload)
      ensures old(run) < run && run[0] == old(run[0])
      ensures host.quiet && r.Err? ==> IsDirectory(run[0].fs, Resolved(JobFor(payload), run[0].fs))
    {
      hide Inv, Realpath, Foreign, QuietRun, Run, MakeDirs, Stat, Others, Create, Public, EntryMatches, Write,
        LinkMatches, RealMatches, NewFileMode, Permissions, IsLink, Act, Own, Bind, Unbind, Resolved, IsDirectory;
      var destination := if snap.Link? then snap.destination else path;
      Interfere(payload, Publish, snap, mode, copied);
      ghost var now := Now(Publish, snap, mode, copied);
      if host.quiet { QuietPublication(payload, now); }
      replaceStarted := true;
      var fails := host.CallFails();
      if fails || IsDirectory(host.fs, destination) {
        PublishGaveUp(payload, now, Now(Cleanup(false), snap, mode, copied));
        return Err(CallFailed);
      }
      RenameOver(payload, now, snap, mode, copied, destination);
      r := Ok(());
    }

    /** The rename failed, or the destination is a directory: only the flag was set. */
    ghost method PublishGaveUp(payload: seq<byte>, now: State, next: State)
      requires Tracks(payload, now) && now.pc.Publish? && next == Fail(now.(replaceStarted := !now.snap.Missing?))
      requires next == Now(Cleanup(false), next.snap, next.mode, next.copied)
      modifies this`run
      ensures Stopped(payload) && old(run) < run && run[0] == old(run[0])
    {
      hide Inv, QuietRun, Run, Own;
      PublishFails(JobFor(payload), now);
      GaveUp(payload, now, next);
    }

    /** The rename itself, from the state before the flag was set. */
    method RenameOver(ghost payload: seq<byte>, ghost now: State, snap: Snapshot, ghost mode: Mode, ghost copied: nat,
                      destination: Path)
      requires Tracks(payload, now) && Now(Publish, snap, mode, copied) == now.(replaceStarted := true)
      requires destination == Target(JobFor(payload), now) && !IsDirectory(host.fs, destination)
      requires mine.Some? && destinationTmp.Some? && !snap.Missing?
      modifies host`fs, this`run, this`destinationTmp, this`committed, this`published
      ensures Tracks(payload, Now(if snap.Link? then RecheckLstat else Cleanup(true), snap, mode, copied))
      ensures old(run) < run && run[0] == old(run[0])
    {
      hide Inv, Realpath, Foreign, QuietRun, Run, MakeDirs, Stat, Others, Create, Public, EntryMatches, Write,
        LinkMatches, RealMatches, NewFileMode, Permissions, IsDirectory, Act, Own, Bind, Unbind, Target;
      ReplaceActs(JobFor(payload), now);
      host.fs := Unbind(Bind(host.fs, destination, mine.value), destinationTmp.value);
      destinationTmp, committed, published := None, true, true;
      Did(payload, now, Now(if snap.Link? then RecheckLstat else Cleanup(true), snap, mode, copied));
    }

    lemma QuietPublication(payload: seq<byte>, now: State)
      requires Tracks(payload, now) && host.quiet && now.pc.Publish?
      ensures var j := JobFor(payload);
        && (now.snap.Missing? ==> path !in now.fs.names)
        && (IsDirectory(now.fs, Target(j, now)) ==> IsDirectory(run[0].fs, Resolved(j, run[0].fs)))
    {
      QuietRunInv(JobFor(payload), run, |run| - 1);
    }

    method DropTempName(ghost payload: seq<byte>, ghost snap: Snapshot, ghost mode: Mode, ghost copied: nat)
      returns (r: Result<(), Failure>)
      requires Tracks(payload, Now(DropTemp, snap, mode, copied)) && destinationTmp.Some?
      modifies host`fs, this`run, this`rewritten, this`destinationTmp, this`committed
      ensures r.Ok? ==> Tracks(payload, Now(Cleanup(true), snap, mode, copied))
      ensures r.Err? ==> Stopped(payload)
      ensures old(run) < run && run[0] == old(run[0])
      ensures host.quiet ==> r.Ok?
    {
      hide Inv, Realpath, Foreign, QuietRun, Run, MakeDirs, Stat, Others, Create, Bind, Public, EntryMatches, Write;
      Interfere(payload, DropTemp, snap, mode, copied);
      ghost var now := Now(DropTemp, snap, mode, copied);
      var fails := host.CallFails();
      if fails {
        GaveUp(payload, now, Fail(now));
        return Err(CallFailed);
      }
      host.fs := Unbind(host.fs, destinationTmp.value);
      destinationTmp, committed := None, true;
      Did(payload, now, Now(Cleanup(true), snap, mode, copied));
      r := Ok(());
    }

    /** The last step of every commit: the temporary name, if there still is one, goes. */
    method CleanUp(ghost payload: seq<byte>, ghost now: State)
      requires Reached(payload, now) && now.pc.Cleanup? && now == Now(now.pc, now.snap, now.mode, now.copied)
      requires host.quiet && now.pc.ok ==> Tracks(payload, now)
      modifies host`fs, this`run
      ensures Reached(payload, Now(End(now.pc.ok), now.snap, now.mode, now.copied))
      ensures host.quiet && now.pc.ok ==> QuietRun(JobFor(payload), run)
      ensures old(run) < run && run[0] == old(run[0])
    {
      hide Inv, Realpath, Foreign, MakeDirs, Stat, Others, Create, Bind, Public, EntryMatches, Write;
      if destinationTmp.Some? {
        host.fs := Unbind(host.fs, destinationTmp.value);
      }
      ghost var next := Now(End(now.pc.ok), now.snap, now.mode, now.copied);
      assert Act(JobFor(payload), now, next);
      hide Act;
      run := run + [next];
    }

    /** The body of the `try` in the commit, up to but not including the clean-up. */
    method Committing(payload: seq<byte>) returns (r: Result<(), Failure>)
      requires Tracks(payload, Now(Lstat, Missing, 0, 0)) && mine.None?
      modifies host`fs, this`run, this`rewritten, this`destinationTmp, this`mine, this`committed,
               this`replaceStarted, this`published
      ensures r.Ok? ==> exists snap, mode, copied :: Tracks(payload, Now(Cleanup(true), snap, mode, copied))
      ensures r.Err? ==> Stopped(payload)
      ensures old(run) < run && run[0] == old(run[0])
      ensures host.quiet && r.Err? ==> !Placeable(JobFor(payload), run[0].fs)
    {
      hide Run, QuietRun, Resolved, IsLink, IsDirectory, Inv, ThroughFile, Realpath, Foreign, Parent, WellFormed;
      var taken := DestinationSnapshot(payload);
      if taken.Err? { return Err(taken.error); }
      var snap := taken.value;
      var destination := if snap.Link? then snap.destination else path;
      r := MakeDirectories(payload, snap, destination);
      if r.Err? { return; }
      var chosen := ModeOf(payload, snap, destination);
      if chosen.Err? { return Err(chosen.error); }
      var mode := chosen.value;
      r := MakeTemp(payload, snap, mode, destination);
      if r.Err? { return; }
      r := Placing(payload, snap, mode);
    }

    method Placing(payload: seq<byte>, snap: Snapshot, mode: Mode) returns (r: Result<(), Failure>)
      requires Tracks(payload, Now(Copy, snap, mode, 0))
      modifies host`fs, this`run, this`rewritten, this`destinationTmp, this`committed, this`replaceStarted,
               this`published
      ensures r.Ok? ==> exists copied :: Tracks(payload, Now(Cleanup(true), snap, mode, copied))
      ensures r.Err? ==> Stopped(payload)
      ensures old(run) < run && run[0] == old(run[0])
      ensures host.quiet && r.Err? ==> IsDirectory(run[0].fs, Resolved(JobFor(payload), run[0].fs))
    {
      hide Run, QuietRun, Resolved, IsDirectory, Inv;
      Sound(payload, Now(Copy, snap, mode, 0));
      NotYetPublished(JobFor(payload), Now(Copy, snap, mode, 0));
      ghost var copied;
      r, copied := FillTemp(payload, snap, mode);
      if r.Err? { return; }
      var same := DestinationMatches(payload, snap, mode, copied, false);
      if same != Ok(true) { return Err(if same.Err? then same.error else DestinationChanged); }
      if snap.Missing? {
        r := LinkTemp(payload, mode, copied);
        return;
      }
      r := ReplaceTemp(payload, snap, mode, copied);
      if r.Err? || !snap.Link? { return; }
      same := DestinationMatches(payload, snap, mode, copied, true);
      if same != Ok(true) { return Err(if same.Err? then same.error else DestinationChanged); }
    }

    method CommitPayload(payload: seq<byte>) returns (r: Result<(), Failure>)
      requires WellFormed(host.fs)
      requires destinationTmp.None? && mine.None? && !committed && !replaceStarted && !published && !rewritten
      modifies host`fs, this`run, this`rewritten, this`destinationTmp, this`mine, this`committed,
               this`replaceStarted, this`published
      ensures run != [] && Run(JobFor(payload), run) && run[0].fs == old(host.fs)
      ensures var s := run[|run| - 1];
        && s.pc == End(r.Ok?) && s.fs == host.fs && s.tmp == destinationTmp && s.published == published
        && s.committed == committed && s.replaceStarted == replaceStarted
      ensures host.quiet && r.Ok? ==> QuietRun(JobFor(payload), run)
      ensures host.quiet ==> (r.Ok? <==> Placeable(JobFor(payload), old(host.fs)))
    {
      run := [Now(Lstat, Missing, 0, 0)];
      r := Committing(payload);
      ghost var now := run[|run| - 1];
      CleanUp(payload, now);
      if host.quiet && r.Ok? {
        QuietCommitNeedsAPlace(JobFor(payload), run);
      }
    }

    /** What the receiver may have done when it reports success for some payload. */
    ghost predicate Delivered(incoming: seq<string>, payload: seq<byte>)
      reads this
    {
      && Verdict(incoming).Accepted?
      && Transfer.DecodesTo(Verdict(incoming).encoded, payload)
      && |payload| == expectedBytes && sha256(payload) == expectedSha
      && run != [] && Run(JobFor(payload), run) && run[|run| - 1].pc == End(true)
      && exists k :: 0 <= k < |run| && Holds(JobFor(payload), run[k])
    }

    /** What `unchanged` means: no step of the commit, if there was one, published anything. */
    ghost predicate NothingPublished()
      reads this
    {
      run == [] || (exists payload :: Run(JobFor(payload), run) && forall k :: 0 <= k < |run| ==> !run[k].published)
    }

    /** The stream and the digest are as the client wanted them, ... */
    ghost predicate Verifiable(incoming: seq<string>, payload: seq<byte>) {
      && Verdict(incoming).Accepted? && Transfer.DecodesTo(Verdict(incoming).encoded, payload)
      && |payload| == expectedBytes && sha256(payload) == expectedSha
    }

    /** ... and the place too. */
    ghost predicate Deliverable(incoming: seq<string>, fs: Fs, payload: seq<byte>)
      reads this
    {
      Verifiable(incoming, payload) && Placeable(JobFor(payload), fs)
    }

    /** No link or replace has been tried. */
    ghost predicate NothingTried()
      reads this
    {
      forall k :: 0 <= k < |run| ==> !run[k].pc.Publish?
    }

    /** What an ERROR says about where the receiver failed, and what it has done until then. */
    ghost predicate Explains(incoming: seq<string>, e: Event)
      reads this, host
    {
      && e.Error? && (e.stage == AtTransfer || e.stage == AtVerify || e.stage == AtCommit)
      && (e.stage == AtCommit <==> run != [])
      && (e.stage == AtVerify ==> Verdict(incoming).Accepted?)
      && (host.quiet && e.stage == AtTransfer ==> !Verdict(incoming).Accepted?)
      && (host.quiet && e.stage == AtVerify ==> forall payload :: !Verifiable(incoming, payload))
      && (e.stage == AtCommit ==> exists payload :: Verifiable(incoming, payload))
      && (e.stage == AtCommit ==> e.destination == ReportedState(run[|run| - 1]))
      && (e.destination == Unchanged ==> NothingPublished())
      && (NothingTried() ==> e.destination == Unchanged)
    }

    /** A stream that the client sent for some content, however the terminal cut it up, is
        deliverable to every place where a file can be put.  So the receiver of such a stream,
        undisturbed, exits with 0 if and only if the destination is such a place. */
    lemma HonestStreamIsDeliverable(incoming: seq<string>, fs: Fs, content: seq<byte>, token: string)
      requires delimiter == Transfer.Delimiter(token) && |delimiter| - 1 <= Transfer.READ_LIMIT
      requires expectedEncoded == 4 * ((|content| + 2) / 3) && expectedBytes == |content|
      requires expectedSha == sha256(content)
      requires Transfer.NoEmptyRead(incoming) && Flatten(incoming) == Base64.Encode(content) + delimiter
      ensures Deliverable(incoming, fs, content) <==> Placeable(JobFor(content), fs)
    {
      hide Transfer.Receive, Transfer.Blocks, Transfer.DecodeParts, Transfer.Delimiter, Placeable;
      Transfer.BlocksAre(Base64.Encode(content));
      Transfer.EndToEnd(content, token, incoming, Transfer.Blocks(Base64.Encode(content)));
    }

    /** The program from start to exit code. */
    method Execute() returns (code: int)
      requires Fresh() && WellFormed(host.fs)
      modifies this`encodedPath, this`decodedPath, this`actualBytes, this`actualSha, this`run, this`rewritten,
               this`destinationTmp, this`mine, this`committed, this`replaceStarted, this`published,
               host`fs, host`incoming, host`texts, host`datas, host`echo, host`screen, host`loud
      ensures host.echo == old(host.echo)
      ensures host.texts == old(host.texts) && host.datas == old(host.datas)
      ensures destinationTmp.Some? ==> destinationTmp.value !in host.fs.names
      ensures host.screen != [] && |old(host.screen)| < |host.screen|
      ensures || |host.screen| == |old(host.screen)| + 1
              || (host.screen[|old(host.screen)|] == Ready && host.loud == old(host.loud) + [false, old(host.echo)])
      ensures code == 0 || code == 1
      ensures code == 0 ==> host.screen == old(host.screen) + [Ready, Done(expectedBytes, expectedSha)]
      ensures code == 0 ==> exists payload :: Delivered(old(host.incoming), payload)
      ensures code == 1 ==> Explains(old(host.incoming), host.screen[|host.screen| - 1])
      ensures host.quiet ==>
                (code == 0 <==> exists payload :: Deliverable(old(host.incoming), old(host.fs), payload))
    {
      hide Run, QuietRun, Holds, Transfer.Receive, Transfer.DecodeBlocks, Placeable;
      var received := ReceivePayload();
      if received.Err? {
        host.RemoveText(encodedPath);
        host.Print(Error(AtTransfer, Unchanged));
        return 1;
      }
      code := Deliver(old(host.incoming), received.value);
    }

    /** The program once the payload has been received. */
    method Deliver(ghost incoming: seq<string>, encoded: string) returns (code: int)
      requires WellFormed(host.fs) && Verdict(incoming) == Transfer.Accepted(encoded)
      requires decodedPath.None? && destinationTmp.None? && mine.None? && run == []
      requires !committed && !replaceStarted && !published && !rewritten
      modifies this`decodedPath, this`actualBytes, this`actualSha, this`run, this`rewritten,
               this`destinationTmp, this`mine, this`committed, this`replaceStarted, this`published,
               host`fs, host`texts, host`datas, host`screen, host`loud
      ensures host.texts == if encodedPath.Some? then old(host.texts) - {encodedPath.value} else old(host.texts)
      ensures host.datas == old(host.datas)
      ensures destinationTmp.Some? ==> destinationTmp.value !in host.fs.names
      ensures |host.screen| == |old(host.screen)| + 1 && host.screen[..|old(host.screen)|] == old(host.screen)
      ensures host.loud == old(host.loud) + [host.echo]
      ensures code == 0 || code == 1
      ensures code == 0 ==> host.screen[|old(host.screen)|] == Done(expectedBytes, expectedSha)
      ensures code == 0 ==> exists payload :: Delivered(incoming, payload)
      ensures code == 1 ==> Explains(incoming, host.screen[|old(host.screen)|])
      ensures host.quiet ==> (code == 0 <==> exists data :: Deliverable(incoming, old(host.fs), data))
    {
      hide Run, QuietRun, Holds, Transfer.Receive, Transfer.DecodeBlocks, Placeable;
      var verified := VerifyPayload(encoded);
      if verified.Err? {
        host.RemoveText(encodedPath);
        host.RemoveData(decodedPath);
        host.Print(Error(AtVerify, Unchanged));
        return 1;
      }
      code := PlaceVerified(incoming, encoded, verified.value);
    }

    /** ... and once it has been verified. */
    method PlaceVerified(ghost incoming: seq<string>, ghost encoded: string, payload: seq<byte>) returns (code: int)
      requires WellFormed(host.fs) && Verdict(incoming) == Transfer.Accepted(encoded)
      requires Transfer.DecodesTo(encoded, payload) && |payload| == expectedBytes && sha256(payload) == expectedSha
      requires actualBytes == Some(expectedBytes) && actualSha == Some(expectedSha)
      requires destinationTmp.None? && mine.None? && run == []
      requires !committed && !replaceStarted && !published && !rewritten
      modifies this`run, this`rewritten, this`destinationTmp, this`mine, this`committed, this`replaceStarted,
               this`published, host`fs, host`texts, host`datas, host`screen, host`loud
      ensures host.texts == if encodedPath.Some? then old(host.texts) - {encodedPath.value} else old(host.texts)
      ensures host.datas == if decodedPath.Some? then old(host.datas) - {decodedPath.value} else old(host.datas)
      ensures destinationTmp.Some? ==> destinationTmp.value !in host.fs.names
      ensures host.loud == old(host.loud) + [host.echo]
      ensures code == 0 || code == 1
      ensures code == 0 ==> host.screen == old(host.screen) + [Done(expectedBytes, expectedSha)]
      ensures code == 0 ==> Delivered(incoming, payload)
      ensures code == 1 ==> |host.screen| == |old(host.screen)| + 1
      ensures code == 1 ==> host.screen[..|old(host.screen)|] == old(host.screen)
      ensures code == 1 ==> Explains(incoming, host.screen[|old(host.screen)|])
      ensures host.quiet ==> (code == 0 <==> exists data :: Deliverable(incoming, old(host.fs), data))
    {
      hide Run, QuietRun, Holds, Transfer.Receive, Transfer.DecodeBlocks, Placeable,
        NothingPublished;
      var placed := CommitPayload(payload);
      host.RemoveText(encodedPath);
      host.RemoveData(decodedPath);
      CommitOutcome(payload);
      assert forall data :: Deliverable(incoming, old(host.fs), data) ==> data == payload;
      if placed.Err? {
        var state := if replaceStarted || committed then Unknown else Unchanged;
        assert Verifiable(incoming, payload);
        host.Print(Error(AtCommit, state));
        return 1;
      }
      host.Print(Done(actualBytes.value, actualSha.value));
      code := 0;
      assert host.quiet ==> Deliverable(incoming, old(host.fs), payload);
    }

    /** What the transition system says about a commit that has ended. */
    lemma CommitOutcome(payload: seq<byte>)
      requires run != [] && Run(JobFor(payload), run) && run[|run| - 1].pc.End?
      ensures var s := run[|run| - 1];
        && (s.tmp.Some? ==> s.tmp.value !in s.fs.names)
        && (s.pc.ok ==> exists k :: 0 <= k < |run| && Holds(JobFor(payload), run[k]))
        && (!s.pc.ok && !s.replaceStarted && !s.committed ==> NothingPublished())
        && (NothingTried() ==> !s.replaceStarted && !s.committed)
    {
      var j, i := JobFor(payload), |run| - 1;
      if NothingTried() {
        Comparison.UntriedSaysUnchanged(j, run, i);
      }
      NoTemporaryRemains(j, run, i);
      if run[i].pc.ok {
        DoneMeansHeld(j, run, i);
      } else {
        forall k | 0 <= k < |run| && !run[i].replaceStarted && !run[i].committed
          ensures !run[k].published
        {
          UnchangedIsSound(j, run, i, k);
        }
      }
    }
  }

  lemma NotYetPublished(j: Job, s: State)
    requires Inv(j, s) && Working(s.pc)
    ensures !s.replaceStarted && !s.published && !s.committed && s.mine.Some? && s.tmp.Some?
  {
  }

  lemma NothingYet(j: Job, s: State)
    requires Inv(j, s) && Before(s.pc)
    ensures s.tmp.None? && s.mine.None? && !s.published
  {
  }

  function TempName(directory: Path, n: nat): Path {
    directory + [".rsm-tmp-" + seq(n, _ => 'x')]
  }

  lemma TempNamesDiffer(directory: Path, n: nat, m: nat)
    requires TempName(directory, n) == TempName(directory, m)
    ensures n == m
  {
    assert TempName(directory, n)[|directory|] == TempName(directory, m)[|directory|];
    assert |".rsm-tmp-" + seq(n, _ => 'x')| == 9 + n;
    assert |".rsm-tmp-" + seq(m, _ => 'x')| == 9 + m;
  }

  method UnusedName(directory: Path, taken: set<Path>) returns (name: Path)
    ensures name !in taken && Parent(name) == directory
  {
    var n := 0;
    ghost var left := taken;
    while TempName(directory, n) in taken
      invariant forall m :: m >= n && TempName(directory, m) in taken ==> TempName(directory, m) in left
      decreases |left|
    {
      forall m | m > n
        ensures TempName(directory, m) != TempName(directory, n)
      {
        if TempName(directory, m) == TempName(directory, n) { TempNamesDiffer(directory, m, n); }
      }
      left := left - {TempName(directory, n)};
      n := n + 1;
    }
    name := TempName(directory, n);
  }
}
