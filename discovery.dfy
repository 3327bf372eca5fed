/** Discovery of the configuration file among the fixed candidate locations. */
module Discovery {
  import opened Wrappers
  import opened Sections
  import opened Defaults

  /** `getDefaultConfigFilePaths`: the candidates in priority order, the override first. */
  function DefaultConfigFilePaths(): (paths: seq<string>)
    ensures |paths| == 2 && paths[0] != paths[1]
    ensures paths[0] == DefaultSysConfRuntimeConfiguration && paths[1] == DefaultRuntimeConfiguration
  {
    [DefaultSysConfRuntimeConfiguration, DefaultRuntimeConfiguration]
  }

  /**
   * The reference search: the first candidate that resolves, or one failure
   * per candidate, in candidate order.
   */
  function Discover(paths: seq<string>, resolve: string -> Result<string, string>): Result<string, seq<CandidateFailure>>
  {
    if |paths| == 0 then Failure([])
    else
      match resolve(paths[0])
      case Success(p) => Success(p)
      case Failure(cause) =>
        match Discover(paths[1..], resolve)
        case Success(p) => Success(p)
        case Failure(rest) => Failure([CandidateFailure(paths[0], cause)] + rest)
  }

  /** All candidates before `i` fail to resolve. */
  predicate NoneResolveBefore(paths: seq<string>, resolve: string -> Result<string, string>, i: int)
    requires i <= |paths|
  {
    forall j :: 0 <= j < i ==> resolve(paths[j]).Failure?
  }

  /** One failure per candidate, naming the candidate and its cause, in order. */
  predicate FailuresOf(fs: seq<CandidateFailure>, paths: seq<string>, resolve: string -> Result<string, string>)
  {
    && |fs| == |paths|
    && forall j :: 0 <= j < |paths| ==>
         resolve(paths[j]).Failure? && fs[j] == CandidateFailure(paths[j], resolve(paths[j]).error)
  }

  /** The first candidate that resolves is the one found. */
  lemma {:induction false} DiscoverFindsFirst(paths: seq<string>, resolve: string -> Result<string, string>, i: nat)
    requires i < |paths| && resolve(paths[i]).Success?
    requires NoneResolveBefore(paths, resolve, i)
    ensures Discover(paths, resolve) == Success(resolve(paths[i]).value)
  {
    if i > 0 {
      assert resolve(paths[0]).Failure?;
      assert forall j :: 0 <= j < i - 1 ==> paths[1..][j] == paths[j + 1];
      DiscoverFindsFirst(paths[1..], resolve, i - 1);
    }
  }

  /** When no candidate resolves, the error lists every candidate's failure in order. */
  lemma {:induction false} DiscoverAllFail(paths: seq<string>, resolve: string -> Result<string, string>)
    requires NoneResolveBefore(paths, resolve, |paths|)
    ensures Discover(paths, resolve).Failure?
    ensures FailuresOf(Discover(paths, resolve).error, paths, resolve)
  {
    if |paths| > 0 {
      assert forall j :: 0 <= j < |paths| - 1 ==> paths[1..][j] == paths[j + 1];
      DiscoverAllFail(paths[1..], resolve);
      var fs := Discover(paths, resolve).error;
      assert forall j :: 1 <= j < |paths| ==> fs[j] == Discover(paths[1..], resolve).error[j - 1];
    }
  }

  /** Discovery succeeds exactly when some candidate resolves. */
  lemma {:induction false} DiscoverSucceedsIff(paths: seq<string>, resolve: string -> Result<string, string>)
    ensures Discover(paths, resolve).Success? <==> exists i :: 0 <= i < |paths| && resolve(paths[i]).Success?
  {
    if |paths| > 0 {
      DiscoverSucceedsIff(paths[1..], resolve);
      assert forall j :: 0 <= j < |paths| - 1 ==> paths[1..][j] == paths[j + 1];
      if resolve(paths[0]).Failure? && exists i :: 0 <= i < |paths| && resolve(paths[i]).Success? {
        var i :| 0 <= i < |paths| && resolve(paths[i]).Success?;
        assert resolve(paths[1..][i - 1]).Success?;
      }
    }
  }

  /** `getDefaultConfigFile`'s result: the resolved path, or the aggregated failures. */
  function DefaultConfigFile(resolve: string -> Result<string, string>): Result<string, ConfigError>
  {
    match Discover(DefaultConfigFilePaths(), resolve)
    case Success(p) => Success(p)
    case Failure(fs) => Failure(NoConfigFile(fs))
  }

  /**
   * `getDefaultConfigFile`: tries the candidates in order, returns the first
   * that resolves, and otherwise reports one failure per candidate.
   */
  method GetDefaultConfigFile(resolve: string -> Result<string, string>) returns (r: Result<string, ConfigError>)
    ensures r == DefaultConfigFile(resolve)
    ensures resolve(DefaultSysConfRuntimeConfiguration).Success? ==>
              r == Success(resolve(DefaultSysConfRuntimeConfiguration).value)
    ensures resolve(DefaultSysConfRuntimeConfiguration).Failure? && resolve(DefaultRuntimeConfiguration).Success? ==>
              r == Success(resolve(DefaultRuntimeConfiguration).value)
    ensures r.Failure? ==> r.error.NoConfigFile? && FailuresOf(r.error.candidates, DefaultConfigFilePaths(), resolve)
  {
    var errs: seq<CandidateFailure> := [];
    var paths := DefaultConfigFilePaths();
    for i := 0 to |paths|
      invariant NoneResolveBefore(paths, resolve, i)
      invariant |errs| == i
      invariant forall j :: 0 <= j < i ==> errs[j] == CandidateFailure(paths[j], resolve(paths[j]).error)
    {
      var file := paths[i];
      var resolved := resolve(file);
      if resolved.Success? {
        DiscoverFindsFirst(paths, resolve, i);
        return Success(resolved.value);
      }
      errs := errs + [CandidateFailure(file, resolved.error)];
    }
    DiscoverAllFail(paths, resolve);
    assert errs == Discover(paths, resolve).error;
    r := Failure(NoConfigFile(errs));
  }
}
