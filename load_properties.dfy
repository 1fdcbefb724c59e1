/*
 * What Load's bookkeeping guarantees, stated over Scan, the function that
 * Load's postcondition says it computes.
 */

module LoadProperties {
  import opened Wrappers
  import opened Text
  import opened Plugin
  import opened DllManager

  /** Number of candidates whose native load succeeds. */
  function Loadable<CB, J>(files: seq<Candidate<CB, J>>): nat
    decreases |files|
  {
    if files == [] then 0
    else Loadable(files[..|files| - 1]) + (if files[|files| - 1].loaded.Some? then 1 else 0)
  }

  /** Number of candidates that load and whose file name the allow list admits. */
  function Permitted<CB, J>(files: seq<Candidate<CB, J>>, allowed: string): nat
    decreases |files|
  {
    if files == [] then 0
    else
      var f := files[|files| - 1];
      Permitted(files[..|files| - 1], allowed) + (if f.loaded.Some? && Allowed(allowed, f.fileName) then 1 else 0)
  }

  /** Reference definition of the plugins Load keeps: those that Accepts, in candidate order. */
  ghost function AcceptedCallers<CB, J>(files: seq<Candidate<CB, J>>, env: LoadEnv<CB>): seq<Caller<CB, J>>
  {
    if files == [] then []
    else (if Accepts(files[0], env) then [files[0].loaded.value] else []) + AcceptedCallers(files[1..], env)
  }

  /**
   * Exactly one outcome per candidate: a load attempt always; for a file that
   * loads, exactly one report entry (not allowed, loaded or failed), and an
   * Init call exactly when the file is allowed; only an initialised plugin is
   * kept, under its Name.
   */
  lemma SingleOutcome<CB, J>(f: Candidate<CB, J>, env: LoadEnv<CB>)
    ensures 1 <= |Single(f, env).calls| <= 2 && Single(f, env).calls[0] == NativeLoad(f.fileName)
    ensures |Single(f, env).calls| == 2 <==> f.loaded.Some? && Allowed(env.allowed, f.fileName)
    ensures |Single(f, env).calls| == 2 ==>
      Single(f, env).calls[1] == Init(f.fileName, env.ourversion, env.dllfolder, env.callbacks)
    ensures |Single(f, env).loaded| + |Single(f, env).failed| + |Single(f, env).notAllowed| ==
      (if f.loaded.Some? then 1 else 0)
    ensures Single(f, env).notAllowed != [] <==> f.loaded.Some? && !Allowed(env.allowed, f.fileName)
    ensures Single(f, env).notAllowed != [] ==> Single(f, env).notAllowed == [f.loaded.value.name]
    ensures Single(f, env).failed != [] <==>
      f.loaded.Some? && Allowed(env.allowed, f.fileName) && !Accepts(f, env)
    ensures Single(f, env).failed != [] ==> Single(f, env).failed == [FailedEntry(f.loaded.value)]
    ensures Single(f, env).accepted == (if Accepts(f, env) then [f.loaded.value] else [])
    ensures Single(f, env).loaded == (if Accepts(f, env) then [f.loaded.value.name] else [])
  {
  }

  /**
   * Over the whole folder: at most one report entry per candidate, between
   * one and two calls per candidate; the plugins kept are exactly those named
   * in the loaded report, in order.
   */
  lemma {:induction false} ScanShape<CB, J>(files: seq<Candidate<CB, J>>, env: LoadEnv<CB>)
    ensures |Scan(files, env).loaded| + |Scan(files, env).failed| + |Scan(files, env).notAllowed| <= |files|
    ensures |files| <= |Scan(files, env).calls| <= 2 * |files|
    ensures |Scan(files, env).accepted| == |Scan(files, env).loaded|
    ensures forall k :: 0 <= k < |Scan(files, env).loaded| ==>
      Scan(files, env).loaded[k] == Scan(files, env).accepted[k].name
    decreases |files|
  {
    if files != [] {
      var init, f := files[..|files| - 1], files[|files| - 1];
      ScanShape(init, env);
      SingleOutcome(f, env);
      var p, s := Scan(init, env), Single(f, env);
      assert Scan(files, env) == Concat(p, s);
      assert |s.loaded| == |s.accepted| && (s.loaded != [] ==> s.loaded[0] == s.accepted[0].name);
    }
  }

  /**
   * Each candidate's calls appear in the log at its own position, between the
   * calls of the candidates before it and those after it, and begin with its
   * load attempt.
   */
  lemma CandidateCalls<CB, J>(a: seq<Candidate<CB, J>>, f: Candidate<CB, J>,
                              b: seq<Candidate<CB, J>>, env: LoadEnv<CB>)
    ensures Scan(a + [f] + b, env).calls == Scan(a, env).calls + Single(f, env).calls + Scan(b, env).calls
    ensures Single(f, env).calls[0] == NativeLoad(f.fileName)
  {
    ScanAppend(a + [f], b, env);
    ScanAppend(a, [f], env);
    ScanOne(f, env);
    SingleOutcome(f, env);
  }

  lemma ConcatAssoc<CB, J>(x: ScanResult<CB, J>, y: ScanResult<CB, J>, z: ScanResult<CB, J>)
    ensures Concat(Concat(x, y), z) == Concat(x, Concat(y, z))
  {
    AppendAssoc(x.loaded, y.loaded, z.loaded);
    AppendAssoc(x.failed, y.failed, z.failed);
    AppendAssoc(x.notAllowed, y.notAllowed, z.notAllowed);
    AppendAssoc(x.accepted, y.accepted, z.accepted);
    AppendAssoc(x.calls, y.calls, z.calls);
  }

  lemma ScanOne<CB, J>(f: Candidate<CB, J>, env: LoadEnv<CB>)
    ensures Scan([f], env) == Single(f, env)
  {
    assert [f][..0] == [];
    var s := Single(f, env);
    assert [] + s.loaded == s.loaded && [] + s.failed == s.failed && [] + s.notAllowed == s.notAllowed;
    assert [] + s.accepted == s.accepted && [] + s.calls == s.calls;
  }

  /**
   * Candidates are processed independently and in order: the results of a
   * sequence of files are those of its first part followed by those of the rest.
   */
  lemma {:induction false} ScanAppend<CB, J>(a: seq<Candidate<CB, J>>, b: seq<Candidate<CB, J>>, env: LoadEnv<CB>)
    ensures Scan(a + b, env) == Concat(Scan(a, env), Scan(b, env))
    decreases |b|
  {
    if b == [] {
      var s := Scan(a, env);
      assert a + b == a;
      assert s.loaded + [] == s.loaded && s.failed + [] == s.failed && s.notAllowed + [] == s.notAllowed;
      assert s.accepted + [] == s.accepted && s.calls + [] == s.calls;
    } else {
      var init, last := b[..|b| - 1], b[|b| - 1];
      assert (a + b)[..|a + b| - 1] == a + init;
      assert (a + b)[|a + b| - 1] == last;
      ScanAppend(a, init, env);
      ConcatAssoc(Scan(a, env), Scan(init, env), Single(last, env));
    }
  }

  /**
   * A candidate whose native load fails leaves no trace in the three reports
   * or in DLLs: the results are those of the same folder without it. Only the
   * attempt to load it is recorded.
   */
  lemma DroppedCandidateLeavesNoTrace<CB, J>(a: seq<Candidate<CB, J>>, f: Candidate<CB, J>,
                                             b: seq<Candidate<CB, J>>, env: LoadEnv<CB>)
    requires f.loaded.None?
    ensures Scan(a + [f] + b, env).loaded == Scan(a + b, env).loaded
    ensures Scan(a + [f] + b, env).failed == Scan(a + b, env).failed
    ensures Scan(a + [f] + b, env).notAllowed == Scan(a + b, env).notAllowed
    ensures Scan(a + [f] + b, env).accepted == Scan(a + b, env).accepted
    ensures Scan(a + [f] + b, env).calls == Scan(a, env).calls + [NativeLoad(f.fileName)] + Scan(b, env).calls
  {
    ScanAppend(a + [f], b, env);
    ScanAppend(a, [f], env);
    ScanAppend(a, b, env);
    ScanOne(f, env);
    SingleDropped(f, env);
    var sa, sb := Scan(a, env), Scan(b, env);
    assert sa.loaded + [] == sa.loaded && sa.failed + [] == sa.failed && sa.notAllowed + [] == sa.notAllowed;
    assert sa.accepted + [] == sa.accepted;
  }

  /**
   * A candidate that fails to load, or that the allow list rejects, is never
   * passed to Init: its only call is the load attempt, between the calls of
   * the candidates before it and those of the candidates after it.
   */
  lemma RejectedCandidateGetsNoInit<CB, J>(a: seq<Candidate<CB, J>>, f: Candidate<CB, J>,
                                           b: seq<Candidate<CB, J>>, env: LoadEnv<CB>)
    requires f.loaded.None? || !Allowed(env.allowed, f.fileName)
    ensures Scan(a + [f] + b, env).calls == Scan(a, env).calls + [NativeLoad(f.fileName)] + Scan(b, env).calls
  {
    ScanAppend(a + [f], b, env);
    ScanAppend(a, [f], env);
    ScanOne(f, env);
    if f.loaded.None? {
      SingleDropped(f, env);
    } else {
      SingleNotAllowed(f, env);
    }
  }

  /**
   * Every candidate that loads is reported exactly once: as loaded or failed
   * when the allow list admits it, as not allowed otherwise. The plugins kept
   * are exactly the ones reported as loaded, with the same names in the same
   * order; when every admitted plugin initialises, nothing is reported failed.
   */
  lemma {:induction false} ScanCounts<CB, J>(files: seq<Candidate<CB, J>>, env: LoadEnv<CB>)
    ensures |Scan(files, env).loaded| + |Scan(files, env).failed| == Permitted(files, env.allowed)
    ensures |Scan(files, env).notAllowed| == Loadable(files) - Permitted(files, env.allowed)
    ensures Permitted(files, env.allowed) <= Loadable(files) <= |files|
    ensures |Scan(files, env).accepted| == |Scan(files, env).loaded|
    ensures forall k :: 0 <= k < |Scan(files, env).accepted| ==>
      Scan(files, env).loaded[k] == Scan(files, env).accepted[k].name
    ensures (forall i :: 0 <= i < |files| && files[i].loaded.Some? && Allowed(env.allowed, files[i].fileName) ==>
               files[i].loaded.value.init(env.ourversion, env.dllfolder, env.callbacks)) ==>
      Scan(files, env).failed == []
    decreases |files|
  {
    if files != [] {
      var init, f := files[..|files| - 1], files[|files| - 1];
      ScanCounts(init, env);
      var p, s := Scan(init, env), Single(f, env);
      assert Scan(files, env) == Concat(p, s);
      if f.loaded.None? {
        SingleDropped(f, env);
      } else if !Allowed(env.allowed, f.fileName) {
        SingleNotAllowed(f, env);
      } else if Accepts(f, env) {
        SingleInitialised(f, env);
      } else {
        SingleInitFailed(f, env);
      }
      if forall i :: 0 <= i < |files| && files[i].loaded.Some? && Allowed(env.allowed, files[i].fileName) ==>
           files[i].loaded.value.init(env.ourversion, env.dllfolder, env.callbacks) {
        assert forall i :: 0 <= i < |init| ==> init[i] == files[i];
      }
    }
  }

  /** The plugins that Load appends to DLLs are exactly the accepted candidates' plugins, in candidate order. */
  lemma {:induction false} ScanAcceptsExactly<CB, J>(files: seq<Candidate<CB, J>>, env: LoadEnv<CB>)
    ensures Scan(files, env).accepted == AcceptedCallers(files, env)
    decreases |files|
  {
    if files != [] {
      var f := files[0];
      assert files == [f] + files[1..];
      ScanAppend([f], files[1..], env);
      ScanOne(f, env);
      ScanAcceptsExactly(files[1..], env);
      if f.loaded.None? {
        SingleDropped(f, env);
      } else if !Allowed(env.allowed, f.fileName) {
        SingleNotAllowed(f, env);
      } else if Accepts(f, env) {
        SingleInitialised(f, env);
      } else {
        SingleInitFailed(f, env);
      }
    }
  }

  /**
   * Init is never called on a plugin whose file name the allow list rejects:
   * every Init that Load records names a candidate that loaded and is allowed.
   */
  lemma {:induction false} NoInitWithoutAllow<CB, J>(files: seq<Candidate<CB, J>>, env: LoadEnv<CB>)
    ensures forall k :: 0 <= k < |Scan(files, env).calls| && Scan(files, env).calls[k].Init? ==>
      Allowed(env.allowed, Scan(files, env).calls[k].file) &&
      exists i :: 0 <= i < |files| && files[i].fileName == Scan(files, env).calls[k].file && files[i].loaded.Some?
    decreases |files|
  {
    if files != [] {
      var init, f := files[..|files| - 1], files[|files| - 1];
      NoInitWithoutAllow(init, env);
      var p, s := Scan(init, env), Single(f, env);
      assert Scan(files, env) == Concat(p, s);
      var calls := p.calls + s.calls;
      if f.loaded.None? {
        SingleDropped(f, env);
      } else if !Allowed(env.allowed, f.fileName) {
        SingleNotAllowed(f, env);
      } else if Accepts(f, env) {
        SingleInitialised(f, env);
      } else {
        SingleInitFailed(f, env);
      }
      forall k | 0 <= k < |calls| && calls[k].Init?
        ensures Allowed(env.allowed, calls[k].file)
        ensures exists i :: 0 <= i < |files| && files[i].fileName == calls[k].file && files[i].loaded.Some?
      {
        if k < |p.calls| {
          assert calls[k] == p.calls[k];
          var i :| 0 <= i < |init| && init[i].fileName == calls[k].file && init[i].loaded.Some?;
          assert files[i] == init[i];
        } else {
          assert calls[k] == s.calls[k - |p.calls|];
          assert files[|files| - 1] == f;
        }
      }
    }
  }

  /**
   * For an allow list written as separator-free names joined by commas (and
   * not the token "All"), a file is allowed exactly when its name equals one
   * of those names, ignoring case.
   */
  lemma AllowListOfNames(names: seq<string>, fileName: string)
    requires |names| >= 1 && NoSeparator(names, ',')
    requires !IsAll(Join(names, ','))
    ensures Allowed(Join(names, ','), fileName) <==>
      exists k :: 0 <= k < |names| && EqualsIgnoreCase(names[k], fileName)
  {
    SplitJoin(names, ',');
  }
}
