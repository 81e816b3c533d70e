/**
 * The server launcher (python/launch_server.py): the command line that starts
 * ComfyUI, the loop that streams its output into the host's script editor and
 * reports the server URL once, and the module-level process handle that
 * `launch_comfyui_server` updates.
 */
module Launcher {
  import opened Base
  import opened UrlPattern

  // ---------------------------------------------------------------------------
  // Configuration and command line
  // ---------------------------------------------------------------------------

  /**
   * The settings read from the environment when the module loads: ComfyUI's
   * checkout directory, the interpreter to run it with, the address and port
   * to listen on, and extra command-line flags.
   */
  datatype Config = Config(root: string, python: string, ip: string, port: int, flags: string)

  /** The defaults used when the environment does not override them. */
  function DefaultConfig(root: string, python: string): Config {
    Config(root, python, "127.0.0.1", 8188, "--log-stdout --disable-auto-launch")
  }

  /** `posixpath.join(dir, file)` for a relative file name. */
  function JoinPath(dir: string, file: string): (r: string)
    ensures dir == "" ==> r == file
    ensures dir != "" && dir[|dir| - 1] == '/' ==> r == dir + file
    ensures dir != "" && dir[|dir| - 1] != '/' ==> r == dir + "/" + file
  {
    if dir == "" || dir[|dir| - 1] == '/' then dir + file else dir + "/" + file
  }

  function MainScript(cfg: Config): string {
    JoinPath(cfg.root, "main.py")
  }

  function ServerScript(cfg: Config): string {
    JoinPath(cfg.root, "server.py")
  }

  /** The message of the RuntimeError raised when neither entry script exists. */
  function MissingEntryMessage(cfg: Config): string {
    "ComfyUI entry script not found. Checked: " + MainScript(cfg) + " and " + ServerScript(cfg) + ". "
    + "Configure NUKE_COMFYUI_DIR correctly. Current: " + cfg.root
  }

  /**
   * `_build_command`. `isFile` answers `os.path.isfile`. The entry script is
   * main.py when it exists, server.py otherwise; when neither exists the
   * build fails with the message above. The command is the interpreter, `-u`,
   * the entry script, `--listen <ip>`, `--port <port>` and then the flags split
   * at whitespace.
   */
  function BuildCommand(cfg: Config, isFile: string -> bool): (r: Result<seq<string>, string>)
    ensures r.Err? <==> !isFile(MainScript(cfg)) && !isFile(ServerScript(cfg))
    ensures r.Err? ==> r.error == MissingEntryMessage(cfg)
    ensures r.Ok? ==> |r.value| >= 7 && r.value[0] == cfg.python && r.value[1] == "-u"
    ensures r.Ok? ==> isFile(r.value[2])
    ensures r.Ok? ==> r.value[2] == (if isFile(MainScript(cfg)) then MainScript(cfg) else ServerScript(cfg))
    ensures r.Ok? ==> r.value[3] == "--listen" && r.value[4] == cfg.ip && r.value[5] == "--port"
    ensures r.Ok? ==> r.value[6] == IntToString(cfg.port)
    ensures r.Ok? ==> r.value[7..] == SplitWords(cfg.flags) && |r.value| == 7 + |SplitWords(cfg.flags)|
    ensures r.Ok? ==> forall t :: 7 <= t < |r.value| ==> IsWord(r.value[t])
  {
    var entry := if isFile(MainScript(cfg)) then MainScript(cfg) else ServerScript(cfg);
    if !isFile(entry) then Err(MissingEntryMessage(cfg))
    else
      var cmd := [cfg.python, "-u", entry, "--listen", cfg.ip, "--port", IntToString(cfg.port)];
      if cfg.flags != "" then Ok(cmd + SplitWords(cfg.flags)) else Ok(cmd)
  }

  /**
   * Nothing of the configuration is lost on the command line: the port reads
   * back as the configured number, and the flag tokens hold exactly the
   * non-whitespace text of the configured flags, in order.
   */
  lemma CommandKeepsSettings(cfg: Config, isFile: string -> bool)
    requires BuildCommand(cfg, isFile).Ok?
    ensures var cmd := BuildCommand(cfg, isFile).value;
      && (cfg.port >= 0 ==> AllDigits(cmd[6]) && DecimalValue(cmd[6]) == cfg.port)
      && (cfg.port < 0 ==> cmd[6][0] == '-' && AllDigits(cmd[6][1..]) && DecimalValue(cmd[6][1..]) == -cfg.port)
      && Concat(cmd[7..]) == WithoutSpaces(cfg.flags)
  {
    var cmd := BuildCommand(cfg, isFile).value;
    if cfg.port >= 0 {
      DecimalRoundTrip(cfg.port);
    } else {
      DecimalRoundTrip(-cfg.port);
      assert cmd[6][1..] == NatToString(-cfg.port);
    }
    SplitWordsKeepsText(cfg.flags);
    if cfg.flags == "" {
      assert cmd[7..] == [];
    } else {
      assert cmd[7..] == SplitWords(cfg.flags);
    }
  }

  /**
   * Flags written as tokens separated by single spaces reach the command line
   * as exactly those tokens, after the seven fixed entries.
   */
  lemma FlagTokensArriveWhole(cfg: Config, isFile: string -> bool, ws: seq<string>)
    requires BuildCommand(cfg, isFile).Ok?
    requires forall t :: 0 <= t < |ws| ==> IsWord(ws[t])
    requires cfg.flags == JoinWords(ws)
    ensures BuildCommand(cfg, isFile).value == BuildCommand(cfg, isFile).value[..7] + ws
  {
    SplitJoinRoundTrip(ws);
  }

  /**
   * With the default settings ComfyUI listens on 127.0.0.1, port 8188, and
   * gets the two default flags.
   */
  lemma DefaultCommand(root: string, python: string, isFile: string -> bool)
    requires isFile(JoinPath(root, "main.py"))
    ensures var r := BuildCommand(DefaultConfig(root, python), isFile);
      && r.Ok? && |r.value| == 9
      && r.value[2] == JoinPath(root, "main.py")
      && r.value[4] == "127.0.0.1" && r.value[6] == "8188"
      && r.value[7..] == ["--log-stdout", "--disable-auto-launch"]
  {
    var cfg := DefaultConfig(root, python);
    DefaultPortText();
    DefaultFlags();
    assert cfg.flags == "--log-stdout --disable-auto-launch";
  }

  lemma DefaultPortText()
    ensures IntToString(8188) == "8188"
  {
    assert NatToString(8) == "8";
    assert NatToString(81) == "81";
    assert NatToString(818) == "818";
  }

  lemma DefaultFlags()
    ensures SplitWords("--log-stdout --disable-auto-launch") == ["--log-stdout", "--disable-auto-launch"]
  {
    var ws := ["--log-stdout", "--disable-auto-launch"];
    assert JoinWords(ws) == "--log-stdout --disable-auto-launch";
    assert IsWord(ws[0]) && IsWord(ws[1]);
    SplitJoinRoundTrip(ws);
  }

  // ---------------------------------------------------------------------------
  // Output streaming
  // ---------------------------------------------------------------------------

  /** The echo of one output line. */
  function EchoLine(name: string, line: string): string {
    "[ComfyUI:" + name + "] " + line
  }

  const AnnouncementPrefix: string := "[ComfyUI] Server running at: "

  /** The one-time report of the server URL. */
  function Announcement(url: string): string {
    AnnouncementPrefix + url
  }

  predicate IsAnnouncement(entry: string) {
    |entry| >= |AnnouncementPrefix| && entry[..|AnnouncementPrefix|] == AnnouncementPrefix
  }

  /**
   * The lines `iter(pipe.readline, "")` yields: those before the first empty
   * read, which signals the end of the stream.
   */
  function UntilEof(chunks: seq<string>): (r: seq<string>)
    ensures |r| <= |chunks| && r == chunks[..|r|]
    ensures forall k :: 0 <= k < |r| ==> r[k] != ""
    ensures |r| < |chunks| ==> chunks[|r|] == ""
  {
    if chunks == [] || chunks[0] == "" then []
    else
      var rest := UntilEof(chunks[1..]);
      assert [chunks[0]] + rest == chunks[..|rest| + 1];
      [chunks[0]] + rest
  }

  /** The lines read are exactly the non-empty reads before the first empty one. */
  lemma UntilEofAt(chunks: seq<string>, i: nat)
    requires i <= |chunks| && (i == |chunks| || chunks[i] == "")
    requires forall k :: 0 <= k < i ==> chunks[k] != ""
    ensures UntilEof(chunks) == chunks[..i]
  {
  }

  /**
   * Some line of `lines`, stripped, holds a URL. The reader's lemmas take the
   * line search `find` as a parameter; the reader itself uses `Search`.
   */
  predicate Reported(lines: seq<string>, find: string -> Option<string>) {
    exists k :: 0 <= k < |lines| && find(RStrip(lines[k])).Some?
  }

  /**
   * What `_reader_loop` prints for `lines`: every line echoed with trailing
   * whitespace stripped, and after the first line that holds a URL, the
   * announcement of that URL.
   */
  function Transcript(name: string, lines: seq<string>, find: string -> Option<string>): seq<string> {
    if lines == [] then []
    else
      var init := lines[..|lines| - 1];
      var line := RStrip(lines[|lines| - 1]);
      Transcript(name, init, find) + [EchoLine(name, line)]
      + (if !Reported(init, find) && find(line).Some? then [Announcement(find(line).value)] else [])
  }

  /** `_reader_loop(pipe, name)`; `chunks` are the successive `pipe.readline()` results. */
  method ReaderLoop(chunks: seq<string>, name: string) returns (log: seq<string>)
    ensures log == Transcript(name, UntilEof(chunks), Search)
  {
    var reported := false;
    log := [];
    var i := 0;
    while i < |chunks| && chunks[i] != ""
      invariant 0 <= i <= |chunks|
      invariant forall k :: 0 <= k < i ==> chunks[k] != ""
      invariant log == Transcript(name, chunks[..i], Search)
      invariant reported == Reported(chunks[..i], Search)
    {
      var line := RStrip(chunks[i]);
      TranscriptStep(name, chunks, i, Search);
      log := log + [EchoLine(name, line)];
      if !reported {
        var m := Search(line);
        if m.Some? {
          log := log + [Announcement(m.value)];
          reported := true;
        }
      }
      i := i + 1;
    }
    UntilEofAt(chunks, i);
  }

  /** One more line: its echo, and its announcement when it is the first with a URL. */
  lemma TranscriptStep(name: string, chunks: seq<string>, i: nat, find: string -> Option<string>)
    requires i < |chunks|
    ensures var line := RStrip(chunks[i]);
      && (Reported(chunks[..i + 1], find) <==> Reported(chunks[..i], find) || find(line).Some?)
      && Transcript(name, chunks[..i + 1], find) == Transcript(name, chunks[..i], find) + [EchoLine(name, line)]
         + (if !Reported(chunks[..i], find) && find(line).Some? then [Announcement(find(line).value)] else [])
  {
    var ls := chunks[..i + 1];
    assert ls[..i] == chunks[..i];
    assert ls[i] == chunks[i];
    ReportedStep(ls, find);
  }

  lemma ReportedStep(lines: seq<string>, find: string -> Option<string>)
    requires lines != []
    ensures Reported(lines, find) <==>
      Reported(lines[..|lines| - 1], find) || find(RStrip(lines[|lines| - 1])).Some?
  {
    var init := lines[..|lines| - 1];
    if Reported(lines, find) && !find(RStrip(lines[|lines| - 1])).Some? {
      var k :| 0 <= k < |lines| && find(RStrip(lines[k])).Some?;
      assert init[k] == lines[k];
    }
    if Reported(init, find) {
      var k :| 0 <= k < |init| && find(RStrip(init[k])).Some?;
      assert lines[k] == init[k];
    }
  }

  /** The echoes alone, one per line. */
  function Echoes(name: string, lines: seq<string>): (r: seq<string>)
    ensures |r| == |lines|
  {
    if lines == [] then [] else Echoes(name, lines[..|lines| - 1]) + [EchoLine(name, RStrip(lines[|lines| - 1]))]
  }

  lemma {:induction false} EchoesAppend(name: string, a: seq<string>, b: seq<string>)
    ensures Echoes(name, a + b) == Echoes(name, a) + Echoes(name, b)
    decreases |b|
  {
    if b == [] {
      assert a + b == a;
    } else {
      assert (a + b)[..|a + b| - 1] == a + b[..|b| - 1];
      EchoesAppend(name, a, b[..|b| - 1]);
    }
  }

  /** When no line holds a URL, the loop only echoes. */
  lemma {:induction false} QuietTranscript(name: string, lines: seq<string>, find: string -> Option<string>)
    requires !Reported(lines, find)
    ensures Transcript(name, lines, find) == Echoes(name, lines)
  {
    if lines != [] {
      ReportedStep(lines, find);
      QuietTranscript(name, lines[..|lines| - 1], find);
    }
  }

  /** After the URL has been reported, a further line is only echoed. */
  lemma EchoOnlyAfterReport(name: string, lines: seq<string>, find: string -> Option<string>)
    requires lines != [] && Reported(lines[..|lines| - 1], find)
    ensures Transcript(name, lines, find) ==
      Transcript(name, lines[..|lines| - 1], find) + [EchoLine(name, RStrip(lines[|lines| - 1]))]
  {
  }

  lemma EchoesOne(name: string, line: string)
    ensures Echoes(name, [line]) == [EchoLine(name, RStrip(line))]
  {
    assert [line][..0] == [];
  }

  /** The announcement follows the echo of the first line that holds a URL. */
  lemma AnnouncedByLast(name: string, lines: seq<string>, find: string -> Option<string>)
    requires lines != [] && find(RStrip(lines[|lines| - 1])).Some? && !Reported(lines[..|lines| - 1], find)
    ensures Transcript(name, lines, find) ==
      Echoes(name, lines) + [Announcement(find(RStrip(lines[|lines| - 1])).value)]
  {
    QuietTranscript(name, lines[..|lines| - 1], find);
  }

  lemma ReportedExtends(a: seq<string>, b: seq<string>, find: string -> Option<string>)
    requires Reported(a, find)
    ensures Reported(a + b, find)
  {
    var k :| 0 <= k < |a| && find(RStrip(a[k])).Some?;
    assert (a + b)[k] == a[k];
  }

  /** Once the URL has been reported, the lines that follow are only echoed. */
  lemma {:induction false} EchoesAfterReport(name: string, a: seq<string>, b: seq<string>, find: string -> Option<string>)
    requires Reported(a, find)
    ensures Transcript(name, a + b, find) == Transcript(name, a, find) + Echoes(name, b)
    decreases |b|
  {
    if b == [] {
      assert a + b == a;
    } else {
      var init, last := b[..|b| - 1], b[|b| - 1];
      assert (a + b)[..|a + b| - 1] == a + init;
      assert (a + b)[|a + b| - 1] == last;
      EchoesAfterReport(name, a, init, find);
      ReportedExtends(a, init, find);
      EchoOnlyAfterReport(name, a + b, find);
      assert Echoes(name, b) == Echoes(name, init) + [EchoLine(name, RStrip(last))];
    }
  }

  /**
   * When line `k` is the first to hold a URL, the loop echoes the lines up to
   * and including it, then announces that line's URL, then echoes the rest
   * and announces nothing more.
   */
  lemma AnnouncedTranscript(name: string, lines: seq<string>, k: nat, find: string -> Option<string>)
    requires k < |lines| && find(RStrip(lines[k])).Some? && !Reported(lines[..k], find)
    ensures Transcript(name, lines, find) ==
      Echoes(name, lines[..k + 1]) + [Announcement(find(RStrip(lines[k])).value)] + Echoes(name, lines[k + 1..])
  {
    var head := lines[..k + 1];
    var tail := lines[k + 1..];
    assert head[..k] == lines[..k] && head[k] == lines[k];
    AnnouncedByLast(name, head, find);
    assert Reported(head, find);
    EchoesAfterReport(name, head, tail, find);
    assert lines == head + tail;
  }

  /** The number of announcements in a log. */
  function Announcements(log: seq<string>): nat {
    if log == [] then 0
    else Announcements(log[..|log| - 1]) + (if IsAnnouncement(log[|log| - 1]) then 1 else 0)
  }

  lemma AnnouncementsSnoc(log: seq<string>, entry: string)
    ensures Announcements(log + [entry]) == Announcements(log) + (if IsAnnouncement(entry) then 1 else 0)
  {
    assert (log + [entry])[..|log|] == log;
  }

  /** An echo never reads as an announcement: the two differ at their ninth character. */
  lemma EchoIsNoAnnouncement(name: string, line: string)
    ensures !IsAnnouncement(EchoLine(name, line))
  {
    assert EchoLine(name, line)[8] == ':';
    assert AnnouncementPrefix[8] == ']';
  }

  lemma AnnouncementIsAnnouncement(url: string)
    ensures IsAnnouncement(Announcement(url))
  {
    assert Announcement(url)[..|AnnouncementPrefix|] == AnnouncementPrefix;
  }

  /**
   * The URL is announced at most once: exactly once when some line holds one,
   * and never otherwise.
   */
  lemma {:induction false} AnnouncedOnce(name: string, lines: seq<string>, find: string -> Option<string>)
    ensures Announcements(Transcript(name, lines, find)) == if Reported(lines, find) then 1 else 0
  {
    if lines != [] {
      var init := lines[..|lines| - 1];
      var line := RStrip(lines[|lines| - 1]);
      AnnouncedOnce(name, init, find);
      ReportedStep(lines, find);
      var echoed := Transcript(name, init, find) + [EchoLine(name, line)];
      EchoIsNoAnnouncement(name, line);
      AnnouncementsSnoc(Transcript(name, init, find), EchoLine(name, line));
      if !Reported(init, find) && find(line).Some? {
        AnnouncementIsAnnouncement(find(line).value);
        AnnouncementsSnoc(echoed, Announcement(find(line).value));
        assert Transcript(name, lines, find) == echoed + [Announcement(find(line).value)];
      } else {
        assert Transcript(name, lines, find) == echoed;
      }
    }
  }

  // ---------------------------------------------------------------------------
  // Process management
  // ---------------------------------------------------------------------------

  /** A started child process. */
  datatype Proc = Proc(pid: int)

  /** What `subprocess.Popen` does: start a process, or raise FileNotFoundError or another error. */
  datatype Spawn = Spawned(proc: Proc) | NotFound(reason: string) | SpawnError(reason: string)

  /** The messages `launch_comfyui_server` prints, in structured form. */
  datatype Notice =
    | AlreadyRunning
    | BuildFailed(reason: string)
    | Launching(cmd: seq<string>)
    | LaunchFailed(notFound: bool, reason: string)
    | ExitedImmediately(code: int)
    | Started(pid: int)

  /**
   * The module state of the launcher: `_process`, the stream the reader thread
   * follows, every command handed to `Popen`, and the notices printed.
   */
  class Server {
    var process: Option<Proc>
    var reader: Option<Proc>
    var spawned: seq<seq<string>>
    var notices: seq<Notice>

    constructor ()
      ensures process == None && reader == None && spawned == [] && notices == []
    {
      process := None;
      reader := None;
      spawned := [];
      notices := [];
    }

    /**
     * `launch_comfyui_server`. `running` answers `poll() is None` for the
     * current handle; `spawn` is the outcome of `Popen`; `exitAfterWait` is
     * what `poll()` reports for the new child after the short wait (None while
     * it still runs).
     */
    method Launch(cfg: Config, isFile: string -> bool, running: Proc -> bool, spawn: Spawn, exitAfterWait: Option<int>)
      modifies this
      // a live server is never started twice
      ensures old(process).Some? && running(old(process).value) ==>
        && process == old(process) && reader == old(reader) && spawned == old(spawned)
        && notices == old(notices) + [AlreadyRunning]
      ensures !(old(process).Some? && running(old(process).value)) ==>
        match BuildCommand(cfg, isFile)
        case Err(e) =>
          && process == old(process) && reader == old(reader) && spawned == old(spawned)
          && notices == old(notices) + [BuildFailed(e)]
        case Ok(cmd) =>
          && spawned == old(spawned) + [cmd]
          && match spawn
             case NotFound(why) =>
               && process == old(process) && reader == old(reader)
               && notices == old(notices) + [Launching(cmd), LaunchFailed(true, why)]
             case SpawnError(why) =>
               && process == old(process) && reader == old(reader)
               && notices == old(notices) + [Launching(cmd), LaunchFailed(false, why)]
             case Spawned(p) =>
               && reader == Some(p)
               && match exitAfterWait
                  case Some(code) =>
                    process == None && notices == old(notices) + [Launching(cmd), ExitedImmediately(code)]
                  case None =>
                    process == Some(p) && notices == old(notices) + [Launching(cmd), Started(p.pid)]
    {
      if process.Some? && running(process.value) {
        notices := notices + [AlreadyRunning];
        return;
      }
      var built := BuildCommand(cfg, isFile);
      if built.Err? {
        notices := notices + [BuildFailed(built.error)];
        return;
      }
      var cmd := built.value;
      notices := notices + [Launching(cmd)];
      spawned := spawned + [cmd];
      match spawn {
        case NotFound(why) =>
          notices := notices + [LaunchFailed(true, why)];
        case SpawnError(why) =>
          notices := notices + [LaunchFailed(false, why)];
        case Spawned(p) =>
          process := Some(p);
          reader := Some(p);
          if exitAfterWait.Some? {
            notices := notices + [ExitedImmediately(exitAfterWait.value)];
            process := None;
          } else {
            notices := notices + [Started(p.pid)];
          }
      }
    }
  }

  /**
   * Launching while the first server still runs starts nothing: only one
   * command is ever handed to `Popen` across the two calls.
   */
  method LaunchTwice(cfg: Config, isFile: string -> bool, p: Proc) returns (s: Server)
    requires BuildCommand(cfg, isFile).Ok?
    ensures s.spawned == [BuildCommand(cfg, isFile).value]
    ensures s.process == Some(p)
    ensures s.notices == [Launching(BuildCommand(cfg, isFile).value), Started(p.pid), AlreadyRunning]
  {
    s := new Server();
    s.Launch(cfg, isFile, _ => true, Spawned(p), None);
    s.Launch(cfg, isFile, _ => true, Spawned(Proc(p.pid + 1)), None);
  }
}
