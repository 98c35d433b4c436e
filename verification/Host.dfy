/** The remote host as the receiver sees it: a terminal, scratch files only the receiver
    uses, and a file system that others change whenever they like. */
module Host {
  import opened Common
  import opened FileTree

  /** What the receiver prints. */
  datatype Event =
    | Ready
    | Error(stage: Stage, destination: DestinationState)
    | Done(bytes: nat, sha: string)

  class Machine {
    var fs: Fs
    var incoming: seq<string>          // what the coming terminal reads return
    var echo: bool
    var texts: map<nat, string>        // scratch files holding the encoded payload
    var datas: map<nat, seq<byte>>     // scratch files holding the decoded payload
    var screen: seq<Event>
    var loud: seq<bool>                // for each of these, whether echo was on when it was printed
    const umask: Mode
    const quiet: bool                  // nobody interferes and no call fails

    constructor (fs: Fs, incoming: seq<string>, umask: Mode, quiet: bool)
      requires WellFormed(fs)
      ensures this.fs == fs && this.incoming == incoming && this.umask == umask && this.quiet == quiet
      ensures echo && texts == map[] && datas == map[] && screen == [] && loud == []
    {
      this.fs, this.incoming, this.umask, this.quiet := fs, incoming, umask, quiet;
      echo, texts, datas, screen, loud := true, map[], map[], [], [];
    }

    /** Others run between two of the receiver's calls. */
    method OthersAct(hidden: set<Path>)
      requires WellFormed(fs)
      modifies this`fs
      ensures Foreign(old(fs), fs, hidden)
      ensures quiet ==> fs == old(fs)
    {
      NothingIsForeign(fs, hidden);
      var other: Fs := *;
      if !quiet && Foreign(fs, other, hidden) {
        fs := other;
      }
    }

    method CallFails() returns (fails: bool)
      ensures quiet ==> !fails
    {
      var chance: bool := *;
      fails := chance && !quiet;
    }

    method Print(e: Event)
      modifies this`screen, this`loud
      ensures screen == old(screen) + [e] && loud == old(loud) + [echo]
    {
      screen, loud := screen + [e], loud + [echo];
    }

    /** One `os.read` of the terminal; nothing left means end of input. */
    method ReadTerminal() returns (part: string)
      modifies this`incoming
      ensures part == if old(incoming) == [] then "" else old(incoming)[0]
      ensures incoming == if old(incoming) == [] then [] else old(incoming)[1..]
    {
      if incoming == [] {
        part := "";
      } else {
        part, incoming := incoming[0], incoming[1..];
      }
    }

    method NewText() returns (t: nat)
      modifies this`texts
      ensures t !in old(texts) && texts == old(texts)[t := ""]
    {
      t := FreshKey(texts.Keys);
      texts := texts[t := ""];
    }

    method NewData() returns (t: nat)
      modifies this`datas
      ensures t !in old(datas) && datas == old(datas)[t := []]
    {
      t := FreshKey(datas.Keys);
      datas := datas[t := []];
    }

    method RemoveText(t: Option<nat>)
      modifies this`texts
      ensures texts == if t.Some? then old(texts) - {t.value} else old(texts)
    {
      if t.Some? { texts := texts - {t.value}; }
    }

    method RemoveData(t: Option<nat>)
      modifies this`datas
      ensures datas == if t.Some? then old(datas) - {t.value} else old(datas)
    {
      if t.Some? { datas := datas - {t.value}; }
    }
  }

  method FreshKey(taken: set<nat>) returns (k: nat)
    ensures k !in taken
  {
    k := 0;
    var left := taken;
    while k in taken
      invariant left == set i | i in taken && i >= k
      decreases |left|
    {
      left := left - {k};
      k := k + 1;
    }
  }

  lemma NothingIsForeign(fs: Fs, hidden: set<Path>)
    requires WellFormed(fs)
    ensures Foreign(fs, fs, hidden)
  {
  }
}
