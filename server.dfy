/** The mutable state of server.js: the module-level `cameras` list filled by
    `loadCameras`, and the `streams` table `startStream` keeps, with the
    retry-on-error timers and the SIGINT handler.

    An ffmpeg command is an opaque object (`Command`); what happens to it is
    driven by events: its `error` or `end` (fluent-ffmpeg reports exactly one
    of them per command), the firing of a retry timer, and SIGINT. */
module Server {
  import opened Wrappers
  import opened Text
  import opened Catalog

  /** Delay of the retry `setTimeout` after a worker error, in milliseconds. */
  const RetryDelayMs: nat := 5000

  /** An ffmpeg command built by `startStream`: it reads the camera's source
      address and writes the camera's playlist. Its listeners belong to the
      camera it was built for. */
  class Command {
    const camera: Camera
    const input: string
    const output: seq<string>

    constructor (camera: Camera)
      ensures this.camera == camera
      ensures input == camera.url && output == OutputPath(camera.id)
    {
      this.camera := camera;
      input := camera.url;
      output := OutputPath(camera.id);
    }
  }

  class Server {
    /** The module-level `cameras` array. */
    var cameras: seq<Camera>
    /** The module-level `streams` object: camera id to its latest command. */
    var streams: map<nat, Command>
    /** Commands that were run and have reported neither `error` nor `end`. */
    var running: set<Command>
    /** Pending retry timers, in the order they fire (all share one delay). */
    var retries: seq<Camera>
    /** Commands sent `kill('SIGKILL')`, in the order they were sent. */
    var kills: seq<Command>
    /** Set once the SIGINT handler has called `process.exit()`. */
    var exited: bool

    /** The table keeps each command under its camera's id; every camera has
        at most one running command or one pending retry, never both, and a
        running command is always the camera's latest. */
    ghost predicate Valid()
      reads this
    {
      (forall id :: id in streams ==> streams[id].camera.id == id) &&
      (forall cmd :: cmd in running ==> cmd.camera.id in streams && streams[cmd.camera.id] == cmd) &&
      (forall i :: 0 <= i < |retries| ==>
         retries[i].id in streams && streams[retries[i].id].camera == retries[i] &&
         streams[retries[i].id] !in running) &&
      (forall i, j :: 0 <= i < j < |retries| ==> retries[i].id != retries[j].id)
    }

    /** The server at start-up: no camera loaded, no stream started. */
    constructor ()
      ensures Valid()
      ensures cameras == [] && streams == map[] && running == {} && retries == []
      ensures kills == [] && !exited
    {
      cameras := [];
      streams := map[];
      running := {};
      retries := [];
      kills := [];
      exited := false;
    }

    /** `loadCameras`: appends the cameras of the catalog file. `file` is the
        file's text, or `None` when reading it throws; the error is caught and
        no camera is added. */
    method LoadCameras(file: Option<string>)
      modifies this`cameras
      ensures file.None? ==> cameras == old(cameras)
      ensures file.Some? ==> cameras == old(cameras) + Parse(file.value)
    {
      if file.Some? {
        var lines := NonBlank(Split(file.value, '\n'));
        ghost var start := cameras;
        var index := 0;
        while index < |lines|
          invariant 0 <= index <= |lines|
          invariant cameras == start + Numbered(lines[..index])
        {
          var line := lines[index];
          NumberedSnoc(lines, index);
          if Accepts(line) {
            var c := EntryOf(line, index + 1);
            assert Numbered(lines[..index + 1]) == Numbered(lines[..index]) + [c];
            Associative(start, Numbered(lines[..index]), [c]);
            cameras := cameras + [c];
          } else {
            assert Numbered(lines[..index + 1]) == Numbered(lines[..index]);
          }
          index := index + 1;
        }
        assert lines[..index] == lines;
      }
    }

    /** `startStream(camera)`: runs a new command for the camera and records
        it as the camera's entry of `streams`; no other entry changes. The
        caller guarantees the camera has no running command and no pending
        retry (true of both call sites). */
    method StartStream(c: Camera) returns (cmd: Command)
      requires Valid() && !exited
      requires c.id in streams ==> streams[c.id] !in running
      requires forall i :: 0 <= i < |retries| ==> retries[i].id != c.id
      modifies this`streams, this`running
      ensures Valid()
      ensures fresh(cmd) && cmd.camera == c
      ensures cmd.input == c.url && cmd.output == OutputPath(c.id)
      ensures streams == old(streams)[c.id := cmd]
      ensures running == old(running) + {cmd}
    {
      cmd := new Command(c);
      streams := streams[c.id := cmd];
      running := running + {cmd};
    }

    /** The start-up sequence of the `listen` callback: `loadCameras()` and
        then `cameras.forEach(startStream)`. */
    method Listen(file: Option<string>)
      requires Valid() && !exited
      requires cameras == [] && streams == map[] && running == {} && retries == []
      modifies this`cameras, this`streams, this`running
      ensures Valid()
      ensures cameras == (if file.Some? then Parse(file.value) else [])
      ensures streams.Keys == Ids(cameras)
      ensures forall i :: 0 <= i < |cameras| ==> streams[cameras[i].id].camera == cameras[i]
      ensures running == streams.Values
    {
      LoadCameras(file);
      assert cameras == (if file.Some? then Parse(file.value) else []);
      if file.Some? {
        ParseSound(file.value);
      }
      StartAll();
    }

    /** `cameras.forEach(startStream)` on freshly loaded cameras, whose ids are
        distinct: every camera ends up with exactly one running command. */
    method StartAll()
      requires Valid() && !exited && IdsIncreasing(cameras)
      requires streams == map[] && running == {} && retries == []
      modifies this`streams, this`running
      ensures Valid()
      ensures streams.Keys == Ids(cameras)
      ensures forall i :: 0 <= i < |cameras| ==> streams[cameras[i].id].camera == cameras[i]
      ensures running == streams.Values
    {
      var n := 0;
      while n < |cameras|
        invariant 0 <= n <= |cameras|
        invariant Valid() && !exited && retries == []
        invariant streams.Keys == Ids(cameras[..n])
        invariant forall i :: 0 <= i < n ==> streams[cameras[i].id].camera == cameras[i]
        invariant running == streams.Values
      {
        var c := cameras[n];
        assert c.id !in streams;
        var cmd := StartStream(c);
        assert Ids(cameras[..n + 1]) == Ids(cameras[..n]) + {c.id};
        n := n + 1;
      }
      assert cameras[..n] == cameras;
    }

    /** The command's `error` listener: schedules exactly one retry of the
        same camera; the `streams` entry is left in place. */
    method OnError(cmd: Command)
      requires Valid() && !exited
      requires cmd in running
      modifies this`running, this`retries
      ensures Valid()
      ensures running == old(running) - {cmd}
      ensures retries == old(retries) + [cmd.camera]
      ensures streams == old(streams)
    {
      running := running - {cmd};
      retries := retries + [cmd.camera];
    }

    /** The command's `end` listener: logs only, and schedules nothing. */
    method OnEnd(cmd: Command)
      requires Valid() && !exited
      requires cmd in running
      modifies this`running
      ensures Valid()
      ensures running == old(running) - {cmd}
      ensures retries == old(retries) && streams == old(streams)
    {
      running := running - {cmd};
    }

    /** The earliest pending retry timer fires. Its guard `streams[camera.id]`
        always holds, since no entry is ever deleted, so the camera is always
        restarted with a fresh command. */
    method OnRetryTimer() returns (cmd: Command)
      requires Valid() && !exited
      requires retries != []
      modifies this`streams, this`running, this`retries
      ensures Valid()
      ensures retries == old(retries)[1..]
      ensures fresh(cmd) && cmd.camera == old(retries)[0]
      ensures streams == old(streams)[cmd.camera.id := cmd]
      ensures running == old(running) + {cmd}
    {
      var c := retries[0];
      retries := retries[1..];
      assert c.id in streams;
      if c.id in streams {
        cmd := StartStream(c);
      } else {
        assert false;
      }
    }

    /** `Object.values(streams)`: the commands of the table, listed in
        ascending order of camera id, each exactly once. */
    method CommandsInIdOrder() returns (sent: seq<Command>)
      requires Valid()
      ensures |sent| == |streams.Keys|
      ensures forall id :: id in streams ==> streams[id] in sent
      ensures forall i :: 0 <= i < |sent| ==>
                sent[i].camera.id in streams && streams[sent[i].camera.id] == sent[i]
      ensures forall i, j :: 0 <= i < j < |sent| ==> sent[i].camera.id < sent[j].camera.id
    {
      var order := AscendingIds(streams.Keys);
      var table := streams;
      sent := seq(|order|, i requires 0 <= i < |order| => table[order[i]]);
      forall id | id in table ensures table[id] in sent {
        var i :| 0 <= i < |order| && order[i] == id;
        assert sent[i] == table[id];
      }
    }

    /** The SIGINT handler: every command of `streams` receives
        `kill('SIGKILL')`, in ascending order of camera id, and the process
        exits. Every running command is among those killed. */
    method OnSigint()
      requires Valid() && !exited
      modifies this`kills, this`exited
      ensures exited
      ensures |kills| == |old(kills)| + |streams.Keys|
      ensures kills[..|old(kills)|] == old(kills)
      ensures forall id :: id in streams ==> streams[id] in kills[|old(kills)|..]
      ensures forall i :: |old(kills)| <= i < |kills| ==>
                kills[i].camera.id in streams && streams[kills[i].camera.id] == kills[i]
      ensures forall i, j :: |old(kills)| <= i < j < |kills| ==> kills[i].camera.id < kills[j].camera.id
      ensures forall cmd :: cmd in running ==> cmd in kills
    {
      var sent := CommandsInIdOrder();
      kills := kills + sent;
      exited := true;
      assert kills[|old(kills)|..] == sent;
    }
  }

  lemma Associative(a: seq<Camera>, b: seq<Camera>, c: seq<Camera>)
    ensures a + b + c == a + (b + c)
  {
  }

  /** The ids of a set in ascending order, each once: the order in which
      `Object.values` visits the integer keys of an object. */
  method AscendingIds(ids: set<nat>) returns (order: seq<nat>)
    ensures |order| == |ids|
    ensures forall id :: id in ids <==> id in order
    ensures forall i, j :: 0 <= i < j < |order| ==> order[i] < order[j]
  {
    var rest := ids;
    order := [];
    while rest != {}
      invariant rest <= ids
      invariant |order| + |rest| == |ids|
      invariant forall id :: id in ids <==> id in order || id in rest
      invariant forall i :: 0 <= i < |order| ==> order[i] !in rest
      invariant forall i, j :: 0 <= i < j < |order| ==> order[i] < order[j]
      invariant forall i, id :: 0 <= i < |order| && id in rest ==> order[i] < id
      decreases rest
    {
      var least := Least(rest);
      order := order + [least];
      rest := rest - {least};
    }
  }

  /** The least id of a non-empty set. */
  method Least(s: set<nat>) returns (m: nat)
    requires s != {}
    ensures m in s && forall x :: x in s ==> m <= x
  {
    HasMinimum(s);
    m :| IsLeast(m, s);
  }

  predicate IsLeast(m: nat, s: set<nat>)
  {
    m in s && forall x :: x in s ==> m <= x
  }

  /** Every non-empty set of ids has a least element. */
  lemma {:induction false} HasMinimum(s: set<nat>)
    requires s != {}
    ensures exists m :: IsLeast(m, s)
  {
    var x :| x in s;
    if s == {x} {
      assert IsLeast(x, s);
    } else {
      var rest := s - {x};
      HasMinimum(rest);
      var m :| IsLeast(m, rest);
      var least := if x < m then x else m;
      forall y | y in s ensures least <= y {
        if y != x {
          assert y in rest;
        }
      }
      assert IsLeast(least, s);
    }
  }
}
