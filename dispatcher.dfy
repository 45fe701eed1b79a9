/**
 * The package entry points. `createLanguageService` picks an implementation
 * by the running TypeScript version: from 5.0.0 on it delegates to the
 * project-backed containers, between 4.0.0 and 5.0.0 it builds the host's
 * language service and patches it for its version range, and below 4.0.0 it
 * returns the host's service untouched. `createProjectService` delegates only
 * for TypeScript 5.0 and later.
 *
 * The running version is a parameter, taken to be a valid version triple; the
 * host's `createLanguageService(host)` is represented by the service it returns.
 */
module Dispatcher {
  import opened Wrappers
  import opened Semver
  import opened Types

  /** Which implementation serves a TypeScript version. */
  datatype Strategy =
    | Ts53   // the 5.3 containers (5.0 containers with 5.3's `createProject`)
    | Ts50   // the 5.0 containers
    | Ts47   // the 4.7 patch of the host's service
    | Ts44   // the 4.4 patch
    | Ts40   // the 4.0 patch
    | Plain  // the host's service as it is

  /** Newer strategies rank higher. */
  function Rank(s: Strategy): (r: nat)
    ensures r <= 5
    ensures r == 0 <==> s == Plain
  {
    match s
    case Ts53 => 5
    case Ts50 => 4
    case Ts47 => 3
    case Ts44 => 2
    case Ts40 => 1
    case Plain => 0
  }

  /** The `semver.gte` tests of `createLanguageService`, in the order they are made. */
  const Chain: seq<(string, Strategy)> :=
    [("5.3.0", Ts53), ("5.0.0", Ts50), ("4.7.0", Ts47), ("4.4.0", Ts44), ("4.0.0", Ts40)]

  /**
   * The first entry whose threshold `version` reaches, or `Plain` when none
   * does; a threshold `semver` rejects throws, which ends the chain.
   */
  function Select(version: Version, chain: seq<(string, Strategy)>): (r: Result<Strategy, string>)
    ensures chain == [] ==> r == Success(Plain)
    ensures r.Failure? ==> exists i :: 0 <= i < |chain| && r.error == "Invalid Version: " + chain[i].0
    ensures r.Success? && r.value != Plain ==> exists i :: 0 <= i < |chain| && chain[i].1 == r.value
    decreases |chain|
  {
    if chain == [] then Success(Plain)
    else
      match Gte(version, chain[0].0)
      case Failure(e) => Failure(e)
      case Success(reached) =>
        if reached then Success(chain[0].1)
        else
          var rest := Select(version, chain[1..]);
          assert rest.Failure? ==> exists i :: 1 <= i < |chain| && rest.error == "Invalid Version: " + chain[i].0 by {
            if rest.Failure? {
              var i :| 0 <= i < |chain[1..]| && rest.error == "Invalid Version: " + chain[1..][i].0;
              assert chain[1..][i] == chain[i + 1];
            }
          }
          assert rest.Success? && rest.value != Plain ==> exists i :: 1 <= i < |chain| && chain[i].1 == rest.value by {
            if rest.Success? && rest.value != Plain {
              var i :| 0 <= i < |chain[1..]| && chain[1..][i].1 == rest.value;
              assert chain[1..][i] == chain[i + 1];
            }
          }
          rest
  }

  /**
   * The shape of the chain: the five strategies in order, each threshold in
   * the strict form and parsing to the triple of its version.
   */
  ghost predicate ChainShape(c: seq<(string, Strategy)>)
  {
    && |c| == 5
    && c[0].1 == Ts53 && ParseVersion(c[0].0) == Some(Version(5, 3, 0))
    && c[1].1 == Ts50 && ParseVersion(c[1].0) == Some(Version(5, 0, 0))
    && c[2].1 == Ts47 && ParseVersion(c[2].0) == Some(Version(4, 7, 0))
    && c[3].1 == Ts44 && ParseVersion(c[3].0) == Some(Version(4, 4, 0))
    && c[4].1 == Ts40 && ParseVersion(c[4].0) == Some(Version(4, 0, 0))
  }

  /** Every threshold of the chain is in the strict form, so no test of the chain throws. */
  lemma ChainThresholds()
    ensures ChainShape(Chain)
  {
    Parses530();
    Parses500();
    Parses470();
    Parses440();
    Parses400();
  }

  lemma Parses530()
    ensures ParseVersion("5.3.0") == Some(Version(5, 3, 0))
  {
    assert FormatVersion(Version(5, 3, 0)) == "5.3.0";
    ParseFormat(Version(5, 3, 0));
  }

  lemma Parses500()
    ensures ParseVersion("5.0.0") == Some(Version(5, 0, 0))
  {
    assert FormatVersion(Version(5, 0, 0)) == "5.0.0";
    ParseFormat(Version(5, 0, 0));
  }

  lemma Parses470()
    ensures ParseVersion("4.7.0") == Some(Version(4, 7, 0))
  {
    assert FormatVersion(Version(4, 7, 0)) == "4.7.0";
    ParseFormat(Version(4, 7, 0));
  }

  lemma Parses440()
    ensures ParseVersion("4.4.0") == Some(Version(4, 4, 0))
  {
    assert FormatVersion(Version(4, 4, 0)) == "4.4.0";
    ParseFormat(Version(4, 4, 0));
  }

  lemma Parses400()
    ensures ParseVersion("4.0.0") == Some(Version(4, 0, 0))
  {
    assert FormatVersion(Version(4, 0, 0)) == "4.0.0";
    ParseFormat(Version(4, 0, 0));
  }

  /** One test of the chain: a threshold that parses is either reached or passed over. */
  lemma SelectStep(v: Version, c: seq<(string, Strategy)>, i: nat, t: Version)
    requires i < |c| && ParseVersion(c[i].0) == Some(t)
    ensures Select(v, c[i..]) == if !Less(v, t) then Success(c[i].1) else Select(v, c[i + 1..])
  {
    assert c[i..][0] == c[i];
    assert c[i..][1..] == c[i + 1..];
  }

  /**
   * The version ranges each strategy serves, stated on the triple directly:
   * 5.3 and later, 5.0 to 5.2, 4.7 to 4.9, 4.4 to 4.6, 4.0 to 4.3, before 4.0.
   */
  predicate Serves(s: Strategy, v: Version)
  {
    match s
    case Ts53 => v.major > 5 || (v.major == 5 && v.minor >= 3)
    case Ts50 => v.major == 5 && v.minor < 3
    case Ts47 => v.major == 4 && v.minor >= 7
    case Ts44 => v.major == 4 && 4 <= v.minor < 7
    case Ts40 => v.major == 4 && v.minor < 4
    case Plain => v.major < 4
  }

  /** A chain of that shape picks the one strategy that serves the version. */
  lemma SelectShape(v: Version, c: seq<(string, Strategy)>)
    requires ChainShape(c)
    ensures Select(v, c).Success? && Serves(Select(v, c).value, v)
  {
    assert c[0..] == c;
    SelectStep(v, c, 0, Version(5, 3, 0));
    if Less(v, Version(5, 3, 0)) {
      SelectStep(v, c, 1, Version(5, 0, 0));
      if Less(v, Version(5, 0, 0)) {
        SelectStep(v, c, 2, Version(4, 7, 0));
        if Less(v, Version(4, 7, 0)) {
          SelectStep(v, c, 3, Version(4, 4, 0));
          if Less(v, Version(4, 4, 0)) {
            SelectStep(v, c, 4, Version(4, 0, 0));
            assert c[5..] == [];
          }
        }
      }
    }
  }

  /** The chain never throws, and it picks a strategy exactly when that strategy serves the version. */
  lemma SelectServes(v: Version, s: Strategy)
    ensures Select(v, Chain).Success?
    ensures Select(v, Chain) == Success(s) <==> Serves(s, v)
  {
    ChainThresholds();
    SelectShape(v, Chain);
    if Serves(s, v) {
      ServesUnique(v, s, Select(v, Chain).value);
    }
  }

  /** Exactly one strategy serves each version. */
  lemma ServesUnique(v: Version, s: Strategy, t: Strategy)
    requires Serves(s, v) && Serves(t, v)
    ensures s == t
  {
  }

  /** The ranges are in version order: a later version is served by a strategy of no lower rank. */
  lemma ServesMonotone(a: Version, b: Version, sa: Strategy, sb: Strategy)
    requires !Less(b, a) && Serves(sa, a) && Serves(sb, b)
    ensures Rank(sa) <= Rank(sb)
  {
  }

  /** A later TypeScript version never gets an older strategy. */
  lemma SelectMonotone(a: Version, b: Version)
    requires !Less(b, a)
    ensures Select(a, Chain).Success? && Select(b, Chain).Success?
    ensures Rank(Select(a, Chain).value) <= Rank(Select(b, Chain).value)
  {
    var ra := Select(a, Chain);
    var rb := Select(b, Chain);
    SelectServes(a, Plain);
    SelectServes(b, Plain);
    SelectServes(a, ra.value);
    SelectServes(b, rb.value);
    ServesMonotone(a, b, ra.value, rb.value);
  }

  /** What `createLanguageService` is asked to call on the host's behalf. */
  datatype HostCall =
    | CreatedService                                  // `createLanguageService(host)`
    | Patched(strategy: Strategy, service: LanguageService)  // the version's patch applied to that service
    | Delegated(strategy: Strategy)                   // the 5.x container factory

  /** The container returned and the calls made, in order. */
  datatype Dispatch = Dispatch(container: ProjectContainer, calls: seq<HostCall>)

  /**
   * `createLanguageService`, given the running version and the service the
   * host's factory returns when called. An error from `semver` propagates.
   */
  function CreateLanguageService(version: Version, service: LanguageService): (r: Result<Dispatch, string>)
    ensures r.Success? <==> Select(version, Chain).Success?
    ensures r.Failure? ==> r.error == Select(version, Chain).error
  {
    match Select(version, Chain)
    case Failure(e) => Failure(e)
    case Success(s) => Success(DispatchFor(s, service))
  }

  /** What one strategy returns and calls. */
  function DispatchFor(s: Strategy, service: LanguageService): (d: Dispatch)
    ensures d.container.hasDispose <==> Rank(s) >= 4
    ensures d.container.languageService == ProjectOwned <==> Rank(s) >= 4
    ensures CreatedService in d.calls <==> Rank(s) < 4
    ensures (exists t, x :: Patched(t, x) in d.calls) <==> 1 <= Rank(s) <= 3
  {
    match s
    case Ts53 => Dispatch(ProjectContainer(ProjectOwned, true, true, true), [Delegated(s)])
    case Ts50 => Dispatch(ProjectContainer(ProjectOwned, true, true, true), [Delegated(s)])
    case Plain => Dispatch(ProjectContainer(HostCreated(service), false, false, false), [CreatedService])
    case _ => Dispatch(ProjectContainer(HostCreated(service), false, false, false), [CreatedService, Patched(s, service)])
  }

  /** The strategy `createLanguageService` runs for a version: the one that serves it. */
  lemma Dispatches(v: Version, service: LanguageService) returns (s: Strategy)
    ensures Serves(s, v) && Select(v, Chain) == Success(s)
    ensures CreateLanguageService(v, service) == Success(DispatchFor(s, service))
  {
    SelectServes(v, Plain);
    s := Select(v, Chain).value;
    SelectServes(v, s);
  }

  /** From 5.0.0 on the container is project-backed and has every optional member; before, it has none. */
  lemma ContainerMembers(v: Version, service: LanguageService)
    ensures CreateLanguageService(v, service).Success?
    ensures var c := CreateLanguageService(v, service).value.container;
      && (c.hasSetPreferences <==> !Less(v, Version(5, 0, 0)))
      && (c.hasProjectUpdated <==> !Less(v, Version(5, 0, 0)))
      && (c.hasDispose <==> !Less(v, Version(5, 0, 0)))
      && (c.languageService == ProjectOwned <==> !Less(v, Version(5, 0, 0)))
  {
    var s := Dispatches(v, service);
  }

  /**
   * Between 4.0.0 and 5.0.0 the host's factory is called once, the version's
   * patch is applied to the very service it returned, and that service is the
   * one handed back.
   */
  lemma PatchedRange(v: Version, service: LanguageService)
    requires !Less(v, Version(4, 0, 0)) && Less(v, Version(5, 0, 0))
    ensures CreateLanguageService(v, service).Success?
    ensures var d := CreateLanguageService(v, service).value;
      && Select(v, Chain).Success?
      && d.calls == [CreatedService, Patched(Select(v, Chain).value, service)]
      && Select(v, Chain).value in {Ts47, Ts44, Ts40}
      && d.container.languageService == HostCreated(service)
  {
    var s := Dispatches(v, service);
  }

  /** Before 4.0.0 the host's service is returned as it is: one factory call and no patch. */
  lemma PlainRange(v: Version, service: LanguageService)
    requires Less(v, Version(4, 0, 0))
    ensures CreateLanguageService(v, service) ==
      Success(Dispatch(ProjectContainer(HostCreated(service), false, false, false), [CreatedService]))
  {
    var s := Dispatches(v, service);
  }

  /** From 5.0.0 on the work is delegated, and the host's factory is not called here. */
  lemma DelegatedRange(v: Version, service: LanguageService)
    requires !Less(v, Version(5, 0, 0))
    ensures CreateLanguageService(v, service).Success?
    ensures var d := CreateLanguageService(v, service).value;
      && Select(v, Chain).Success?
      && d.calls == [Delegated(Select(v, Chain).value)]
      && CreatedService !in d.calls
      && (Select(v, Chain).value == Ts53 <==> !Less(v, Version(5, 3, 0)))
  {
    var s := Dispatches(v, service);
  }

  // `createProjectService`.

  /**
   * `createProjectService`, gated on `semver.gte(ts.version, gate)`:
   * `Success(true)` means it delegated to the 5.0 service, `Success(false)`
   * that it returned `undefined`. The source passes `"5.0"` as the gate.
   */
  function CreateProjectService(version: Version, gate: string): (r: Result<bool, string>)
    ensures r.Failure? <==> ParseVersion(gate).None?
    ensures r.Success? ==> (r.value <==> !Less(version, ParseVersion(gate).value))
  {
    match Gte(version, gate)
    case Failure(e) => Failure(e)
    case Success(reached) => Success(reached)
  }

  /** `"5.0"` has two parts, so `semver` rejects it: the gate as written throws for every version. */
  lemma CreateProjectServiceAlwaysThrows(version: Version)
    ensures CreateProjectService(version, "5.0") == Failure("Invalid Version: 5.0")
  {
    SplitNoDot("0");
    SplitFirst("5", "0");
    assert "5" + "." + "0" == "5.0";
    assert Split("5.0") == ["5", "0"];
    assert "Invalid Version: " + "5.0" == "Invalid Version: 5.0";
  }

  /**
   * With the strict gate `"5.0.0"` it never throws, delegates exactly from
   * 5.0.0 on, and agrees with the versions whose containers have `dispose`.
   */
  lemma CreateProjectServiceDelegates(version: Version)
    ensures CreateProjectService(version, "5.0.0") == Success(!Less(version, Version(5, 0, 0)))
    ensures CreateLanguageService(version, LanguageService(0)).Success?
    ensures CreateProjectService(version, "5.0.0") ==
      Success(CreateLanguageService(version, LanguageService(0)).value.container.hasDispose)
  {
    Parses500();
    ContainerMembers(version, LanguageService(0));
  }
}
