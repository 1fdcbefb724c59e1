/*
 * EDDDLLManager: discovers plugins, applies the allow list, keeps the list of
 * initialised plugins, and fans journal entries and commands out to them.
 */

module DllManager {
  import opened Wrappers
  import opened Text
  import opened Plugin

  const AllToken := "All"
  const FolderMissing := "DLL Folder does not exist"
  const NotImplemented := "DLL does not implement ActionCommand"
  const CannotFind := "Cannot find DLL "

  /** The broadcast target and the allow-everything policy: "All" in any letter case. */
  predicate IsAll(s: string)
  {
    EqualsIgnoreCase(s, AllToken)
  }

  /** Enumerable.Contains with a case-insensitive comparer. */
  function ContainsIgnoreCase(xs: seq<string>, x: string): (b: bool)
    ensures b <==> exists k :: 0 <= k < |xs| && EqualsIgnoreCase(xs[k], x)
  {
    if xs == [] then false
    else EqualsIgnoreCase(xs[0], x) || ContainsIgnoreCase(xs[1..], x)
  }

  /** The allow-list check of Load, made on the file name (not on the plugin's Name). */
  predicate Allowed(allowed: string, fileName: string)
  {
    IsAll(allowed) || ContainsIgnoreCase(Split(allowed, ','), fileName)
  }

  /**
   * "All" in any letter case admits every file; otherwise a file is admitted
   * when one of the comma-separated fields equals its name ignoring case, and
   * an allow list without a comma is a single name.
   */
  lemma AllowedMeaning(allowed: string, fileName: string)
    ensures IsAll(allowed) ==> Allowed(allowed, fileName)
    ensures !IsAll(allowed) ==>
      (Allowed(allowed, fileName) <==>
       exists k :: 0 <= k < |Split(allowed, ',')| && EqualsIgnoreCase(Split(allowed, ',')[k], fileName))
    ensures ',' !in allowed ==> (Allowed(allowed, fileName) <==> IsAll(allowed) || EqualsIgnoreCase(allowed, fileName))
  {
    if ',' !in allowed {
      SplitNoSeparator(allowed, ',');
    }
  }

  /** The arguments of Load that stay the same for every candidate. */
  datatype LoadEnv<CB> = LoadEnv(ourversion: string, dllfolder: string, callbacks: CB, allowed: string)

  /**
   * What processing some candidates contributes: the items of the three
   * reports, the plugins added to DLLs, and the native calls made.
   */
  datatype ScanResult<!CB, !J> = ScanResult(
    loaded: seq<string>,
    failed: seq<string>,
    notAllowed: seq<string>,
    accepted: seq<Caller<CB, J>>,
    calls: seq<Call<CB, J>>)

  function Concat<CB, J>(x: ScanResult<CB, J>, y: ScanResult<CB, J>): ScanResult<CB, J>
  {
    ScanResult(x.loaded + y.loaded, x.failed + y.failed, x.notAllowed + y.notAllowed,
               x.accepted + y.accepted, x.calls + y.calls)
  }

  /** The entry for a plugin whose Init failed: its Name, then ": " and the Version without its marker character. */
  function FailedEntry<CB, J>(c: Caller<CB, J>): (r: string)
    ensures |c.name| <= |r| && r[..|c.name|] == c.name
    ensures !HasChars(c.version) ==> r == c.name
    ensures HasChars(c.version) ==>
      |r| == |c.name| + 1 + |c.version.value| && r[|c.name|..|c.name| + 2] == ": " &&
      c.version.value == [c.version.value[0]] + r[|c.name| + 2..]
  {
    c.name + (if HasChars(c.version) then ": " + c.version.value[1..] else "")
  }

  /** The contribution of one candidate file. */
  function Single<CB, J>(f: Candidate<CB, J>, env: LoadEnv<CB>): ScanResult<CB, J>
  {
    var load := [NativeLoad(f.fileName)];
    match f.loaded
    case None => ScanResult([], [], [], [], load)
    case Some(c) =>
      if !Allowed(env.allowed, f.fileName) then
        ScanResult([], [], [c.name], [], load)
      else
        var calls := load + [Init(f.fileName, env.ourversion, env.dllfolder, env.callbacks)];
        if c.init(env.ourversion, env.dllfolder, env.callbacks) then
          ScanResult([c.name], [], [], [c], calls)
        else
          ScanResult([], [FailedEntry(c)], [], [], calls)
  }

  /** The candidate loads, is allowed, and initialises: it is the one kind that enters DLLs. */
  predicate Accepts<CB, J>(f: Candidate<CB, J>, env: LoadEnv<CB>)
  {
    f.loaded.Some? && Allowed(env.allowed, f.fileName) &&
    f.loaded.value.init(env.ourversion, env.dllfolder, env.callbacks)
  }

  lemma SingleDropped<CB, J>(f: Candidate<CB, J>, env: LoadEnv<CB>)
    requires f.loaded.None?
    ensures Single(f, env) == ScanResult([], [], [], [], [NativeLoad(f.fileName)])
  {
  }

  lemma SingleNotAllowed<CB, J>(f: Candidate<CB, J>, env: LoadEnv<CB>)
    requires f.loaded.Some? && !Allowed(env.allowed, f.fileName)
    ensures Single(f, env) == ScanResult([], [], [f.loaded.value.name], [], [NativeLoad(f.fileName)])
  {
  }

  lemma SingleInitialised<CB, J>(f: Candidate<CB, J>, env: LoadEnv<CB>)
    requires Accepts(f, env)
    ensures Single(f, env) == ScanResult([f.loaded.value.name], [], [], [f.loaded.value],
      [NativeLoad(f.fileName), Init(f.fileName, env.ourversion, env.dllfolder, env.callbacks)])
  {
  }

  lemma SingleInitFailed<CB, J>(f: Candidate<CB, J>, env: LoadEnv<CB>)
    requires f.loaded.Some? && Allowed(env.allowed, f.fileName) && !Accepts(f, env)
    ensures Single(f, env) == ScanResult([], [FailedEntry(f.loaded.value)], [], [],
      [NativeLoad(f.fileName), Init(f.fileName, env.ourversion, env.dllfolder, env.callbacks)])
  {
  }

  /** A report string that held the joined items before a step holds them after it. */
  lemma ReportStep(items: seq<string>, extra: seq<string>, before: string, after: string)
    requires before == Joined(items, ",")
    requires extra == [] ==> after == before
    requires extra != [] ==> |extra| == 1 && after == AppendPrePad(before, extra[0], ",")
    ensures after == Joined(items + extra, ",")
  {
    if extra != [] {
      JoinedSnoc(items, extra[0], ",");
      assert extra == [extra[0]];
    } else {
      assert items + extra == items;
    }
  }

  /** The contribution of the candidates, processed in order. */
  function Scan<CB, J>(files: seq<Candidate<CB, J>>, env: LoadEnv<CB>): ScanResult<CB, J>
    decreases |files|
  {
    if files == [] then ScanResult([], [], [], [], [])
    else Concat(Scan(files[..|files| - 1], env), Single(files[|files| - 1], env))
  }

  lemma AppendAssoc<T>(a: seq<T>, b: seq<T>, c: seq<T>)
    ensures a + (b + c) == (a + b) + c
  {
  }

  lemma ScanStep<CB, J>(files: seq<Candidate<CB, J>>, i: nat, env: LoadEnv<CB>)
    requires i < |files|
    ensures Scan(files[..i + 1], env) == Concat(Scan(files[..i], env), Single(files[i], env))
  {
    assert files[..i + 1][..i] == files[..i];
  }

  /** The index of the first plugin whose Name equals name case-insensitively (List.Find). */
  function FirstMatch<CB, J>(dlls: seq<Caller<CB, J>>, name: string): (r: Option<nat>)
    ensures r.None? <==> forall k :: 0 <= k < |dlls| ==> !EqualsIgnoreCase(dlls[k].name, name)
    ensures r.Some? ==> r.value < |dlls| && EqualsIgnoreCase(dlls[r.value].name, name)
    ensures r.Some? ==> forall k :: 0 <= k < r.value ==> !EqualsIgnoreCase(dlls[k].name, name)
  {
    if dlls == [] then None
    else if EqualsIgnoreCase(dlls[0].name, name) then Some(0)
    else match FirstMatch(dlls[1..], name)
      case None => None
      case Some(i) => Some(i + 1)
  }

  /** The calls made by sending request to every plugin, in list order. */
  ghost function Broadcast<CB, J>(dlls: seq<Caller<CB, J>>, request: Request<J>): (r: seq<Call<CB, J>>)
    ensures |r| == |dlls|
    ensures forall k :: 0 <= k < |dlls| ==> r[k] == Dispatch(dlls[k], request)
    decreases |dlls|
  {
    if dlls == [] then []
    else Broadcast(dlls[..|dlls| - 1], request) + [Dispatch(dlls[|dlls| - 1], request)]
  }

  /** One entry of the ActionCommand result list: success, DLL name, message. */
  datatype CommandResult = CommandResult(ok: bool, dll: string, message: string)

  /**
   * AC: run the command on one plugin and decode its answer. A null answer
   * means the plugin has no ActionCommand; otherwise a leading '+' marks
   * success and the rest of the answer is the message.
   */
  function AC<CB, J>(c: Caller<CB, J>, cmd: string, paras: seq<string>): (r: CommandResult)
    ensures r.dll == c.name
    ensures c.actionCommand(cmd, paras).None? ==> !r.ok && r.message == NotImplemented
    ensures c.actionCommand(cmd, paras).Some? ==>
      var s := c.actionCommand(cmd, paras).value;
      (r.ok <==> |s| > 0 && s[0] == '+') &&
      (s == [] ==> r.message == "") &&
      (s != [] ==> s == [s[0]] + r.message)
  {
    var response := c.actionCommand(cmd, paras);
    match response
    case None => CommandResult(false, c.name, NotImplemented)
    case Some(s) =>
      if |s| > 0 && s[0] == '+' then CommandResult(true, c.name, Mid(s, 1))
      else CommandResult(false, c.name, Mid(s, 1))
  }

  /** A response made of a marker character and a message decodes to that message, successful exactly for '+'. */
  lemma ACRoundTrip<CB, J>(c: Caller<CB, J>, cmd: string, paras: seq<string>, marker: char, message: string)
    requires c.actionCommand(cmd, paras) == Some([marker] + message)
    ensures AC(c, cmd, paras) == CommandResult(marker == '+', c.name, message)
  {
    var s := [marker] + message;
    assert s[1..] == message;
  }

  class EDDDLLManager<CB, J> {
    /** The initialised plugins, in the order they were loaded. */
    var DLLs: seq<Caller<CB, J>>
    /** Every call made across the native boundary, oldest first. */
    ghost var Calls: seq<Call<CB, J>>

    constructor ()
      ensures DLLs == [] && Calls == [] && Count() == 0
    {
      DLLs := [];
      Calls := [];
    }

    /** DLLs.Count: zero exactly when no name finds a plugin. */
    function Count(): (n: nat)
      reads this
      ensures n == |DLLs|
      ensures n == 0 <==> forall name :: FindCaller(name).None?
    {
      assert DLLs != [] ==> FindCaller(DLLs[0].name).Some?;
      |DLLs|
    }

    /** The first plugin whose Name equals name case-insensitively, or None (null). */
    function FindCaller(name: string): (r: Option<Caller<CB, J>>)
      reads this
      ensures r.None? <==> forall k :: 0 <= k < |DLLs| ==> !EqualsIgnoreCase(DLLs[k].name, name)
      ensures r.Some? ==>
        exists i :: 0 <= i < |DLLs| && r.value == DLLs[i] &&
          EqualsIgnoreCase(DLLs[i].name, name) &&
          (forall k :: 0 <= k < i ==> !EqualsIgnoreCase(DLLs[k].name, name))
    {
      match FirstMatch(DLLs, name)
      case None => None
      case Some(i) => Some(DLLs[i])
    }

    /**
     * Load every candidate of the folder (already enumerated and ordered by
     * last write time) and report the names that were loaded, failed to
     * initialise, or were not allowed, each comma-joined.
     */
    method Load(directoryExists: bool, files: seq<Candidate<CB, J>>, ourversion: string,
                dllfolder: string, callbacks: CB, allowed: string)
      returns (loaded: string, failed: string, notallowed: string)
      modifies this
      ensures !directoryExists ==>
        loaded == "" && failed == FolderMissing && notallowed == "" &&
        DLLs == old(DLLs) && Calls == old(Calls)
      ensures directoryExists ==>
        var s := Scan(files, LoadEnv(ourversion, dllfolder, callbacks, allowed));
        loaded == Joined(s.loaded, ",") && failed == Joined(s.failed, ",") &&
        notallowed == Joined(s.notAllowed, ",") &&
        DLLs == old(DLLs) + s.accepted && Calls == old(Calls) + s.calls
    {
      loaded, failed, notallowed := "", "", "";
      if !directoryExists {
        failed := FolderMissing;
        return;
      }
      var env := LoadEnv(ourversion, dllfolder, callbacks, allowed);
      var allowedfiles := Split(allowed, ',');
      ghost var done := Scan(files[..0], env);
      for i := 0 to |files|
        invariant done == Scan(files[..i], env)
        invariant DLLs == old(DLLs) + done.accepted
        invariant Calls == old(Calls) + done.calls
        invariant loaded == Joined(done.loaded, ",")
        invariant failed == Joined(done.failed, ",")
        invariant notallowed == Joined(done.notAllowed, ",")
      {
        ghost var prev := done;
        ghost var single := Single(files[i], env);
        ghost var loaded0, failed0, notallowed0 := loaded, failed, notallowed;
        ghost var dlls0, calls0 := DLLs, Calls;
        var filename := files[i].fileName;
        Calls := Calls + [NativeLoad(filename)];
        if files[i].loaded.Some? {
          var caller := files[i].loaded.value;
          if IsAll(allowed) || ContainsIgnoreCase(allowedfiles, filename) {
            Calls := Calls + [Init(filename, ourversion, dllfolder, callbacks)];
            if caller.init(ourversion, dllfolder, callbacks) {
              DLLs := DLLs + [caller];
              loaded := AppendPrePad(loaded, caller.name, ",");
              SingleInitialised(files[i], env);
              assert DLLs == dlls0 + single.accepted;
              assert Calls == calls0 + single.calls;
            } else {
              var errstr := if HasChars(caller.version) then ": " + caller.version.value[1..] else "";
              failed := AppendPrePad(failed, caller.name + errstr, ",");
              SingleInitFailed(files[i], env);
              assert DLLs == dlls0 + single.accepted;
              assert Calls == calls0 + single.calls;
            }
          } else {
            notallowed := AppendPrePad(notallowed, caller.name, ",");
            SingleNotAllowed(files[i], env);
            assert DLLs == dlls0 + single.accepted;
            assert Calls == calls0 + single.calls;
          }
        } else {
          SingleDropped(files[i], env);
          assert DLLs == dlls0 + single.accepted;
          assert Calls == calls0 + single.calls;
        }
        ReportStep(prev.loaded, single.loaded, loaded0, loaded);
        ReportStep(prev.failed, single.failed, failed0, failed);
        ReportStep(prev.notAllowed, single.notAllowed, notallowed0, notallowed);
        done := Concat(prev, single);
        AppendAssoc(old(DLLs), prev.accepted, single.accepted);
        AppendAssoc(old(Calls), prev.calls, single.calls);
        ScanStep(files, i, env);
      }
      assert files[..|files|] == files;
    }

    /** Unload every plugin, in list order, then empty the list. */
    method UnLoad()
      modifies this
      ensures DLLs == [] && Count() == 0
      ensures Calls == old(Calls) + Broadcast(old(DLLs), Unload)
      ensures old(DLLs) == [] ==> Calls == old(Calls)
      ensures forall name :: FindCaller(name).None?
    {
      for i := 0 to |DLLs|
        invariant DLLs == old(DLLs)
        invariant Calls == old(Calls) + Broadcast(DLLs[..i], Unload)
      {
        assert DLLs[..i + 1][..i] == DLLs[..i];
        Calls := Calls + [Dispatch(DLLs[i], Unload)];
      }
      assert DLLs[..|DLLs|] == DLLs;
      DLLs := [];
    }

    /** Pass the commander and journal entry to every plugin, in list order. */
    method Refresh(cmdr: string, je: J)
      modifies this
      ensures DLLs == old(DLLs)
      ensures Calls == old(Calls) + Broadcast(DLLs, Request.Refresh(cmdr, je))
    {
      for i := 0 to |DLLs|
        invariant DLLs == old(DLLs)
        invariant Calls == old(Calls) + Broadcast(DLLs[..i], Request.Refresh(cmdr, je))
      {
        assert DLLs[..i + 1][..i] == DLLs[..i];
        Calls := Calls + [Dispatch(DLLs[i], Request.Refresh(cmdr, je))];
      }
      assert DLLs[..|DLLs|] == DLLs;
    }

    /** Pass a new journal entry to every plugin, in list order. */
    method NewJournalEntry(nje: J)
      modifies this
      ensures DLLs == old(DLLs)
      ensures Calls == old(Calls) + Broadcast(DLLs, Request.NewJournalEntry(nje))
    {
      for i := 0 to |DLLs|
        invariant DLLs == old(DLLs)
        invariant Calls == old(Calls) + Broadcast(DLLs[..i], Request.NewJournalEntry(nje))
      {
        assert DLLs[..i + 1][..i] == DLLs[..i];
        Calls := Calls + [Dispatch(DLLs[i], Request.NewJournalEntry(nje))];
      }
      assert DLLs[..|DLLs|] == DLLs;
    }

    /**
     * Ask plugins to act on a journal entry. found: a plugin was addressed;
     * handled: its answer. The broadcast form reports (true, true) whatever
     * the plugins answer.
     */
    method ActionJournalEntry(dllname: string, nje: J) returns (found: bool, handled: bool)
      modifies this
      ensures DLLs == old(DLLs)
      ensures IsAll(dllname) ==>
        found && handled && Calls == old(Calls) + Broadcast(DLLs, Request.ActionJournalEntry(nje))
      ensures !IsAll(dllname) && FindCaller(dllname).None? ==>
        !found && !handled && Calls == old(Calls)
      ensures !IsAll(dllname) && FindCaller(dllname).Some? ==>
        var c := FindCaller(dllname).value;
        found && handled == c.actionJournalEntry(nje) &&
        Calls == old(Calls) + [Dispatch(c, Request.ActionJournalEntry(nje))]
    {
      if IsAll(dllname) {
        for i := 0 to |DLLs|
          invariant DLLs == old(DLLs)
          invariant Calls == old(Calls) + Broadcast(DLLs[..i], Request.ActionJournalEntry(nje))
        {
          assert DLLs[..i + 1][..i] == DLLs[..i];
          Calls := Calls + [Dispatch(DLLs[i], Request.ActionJournalEntry(nje))];
        }
        assert DLLs[..|DLLs|] == DLLs;
        return true, true;
      } else {
        var caller := FindCaller(dllname);
        if caller.Some? {
          Calls := Calls + [Dispatch(caller.value, Request.ActionJournalEntry(nje))];
          return true, caller.value.actionJournalEntry(nje);
        } else {
          return false, false;
        }
      }
    }

    /**
     * Run a command on the addressed plugins: one result per plugin, in list
     * order, for "All"; otherwise one result for the named plugin, or a
     * "Cannot find DLL " failure naming the target.
     */
    method ActionCommand(dllname: string, cmd: string, paras: seq<string>)
      returns (resultlist: seq<CommandResult>)
      modifies this
      ensures DLLs == old(DLLs)
      ensures IsAll(dllname) ==>
        |resultlist| == |DLLs| &&
        (forall k :: 0 <= k < |DLLs| ==> resultlist[k] == AC(DLLs[k], cmd, paras)) &&
        (forall k :: 0 <= k < |DLLs| ==> resultlist[k].dll == DLLs[k].name) &&
        Calls == old(Calls) + Broadcast(DLLs, Request.ActionCommand(cmd, paras))
      ensures !IsAll(dllname) && FindCaller(dllname).None? ==>
        resultlist == [CommandResult(false, dllname, CannotFind)] && Calls == old(Calls)
      ensures !IsAll(dllname) && FindCaller(dllname).Some? ==>
        var c := FindCaller(dllname).value;
        resultlist == [AC(c, cmd, paras)] &&
        Calls == old(Calls) + [Dispatch(c, Request.ActionCommand(cmd, paras))]
    {
      resultlist := [];
      if IsAll(dllname) {
        for i := 0 to |DLLs|
          invariant DLLs == old(DLLs)
          invariant |resultlist| == i
          invariant forall k :: 0 <= k < i ==> resultlist[k] == AC(DLLs[k], cmd, paras)
          invariant Calls == old(Calls) + Broadcast(DLLs[..i], Request.ActionCommand(cmd, paras))
        {
          assert DLLs[..i + 1][..i] == DLLs[..i];
          Calls := Calls + [Dispatch(DLLs[i], Request.ActionCommand(cmd, paras))];
          resultlist := resultlist + [AC(DLLs[i], cmd, paras)];
        }
        assert DLLs[..|DLLs|] == DLLs;
      } else {
        var caller := FindCaller(dllname);
        if caller.Some? {
          Calls := Calls + [Dispatch(caller.value, Request.ActionCommand(cmd, paras))];
          resultlist := resultlist + [AC(caller.value, cmd, paras)];
        } else {
          resultlist := resultlist + [CommandResult(false, dllname, CannotFind)];
        }
      }
    }
  }
}
