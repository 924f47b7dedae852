/** The updater's transaction: replace the application, and the sandbox with it, or put
    everything back. Any command may fail. */
module Updater {
  import opened Prelude
  import opened Whitespace
  import opened EnvFile

  datatype Service = App | Keepalive | Sandbox

  datatype Status = Idle | Pulling | Restarting | Checking | Completed | Failed

  predicate Busy(s: Status) {
    s.Pulling? || s.Restarting? || s.Checking?
  }

  // ---------------------------------------------------------------------------------------
  // The host: images, containers and the environment file

  datatype ServiceConfig = ServiceConfig(image: string, runtime: string)

  /** What an inspection of a service shows. */
  datatype Seen = Broken | Missing | InspectFailed | State(state: string)

  /** What one command does: whether it succeeds, the image id its tag has afterwards, the
      containers a failed recreation leaves, and what the inspections show until the deadline. */
  datatype Fate = Fate(works: bool, tag: Option<nat>, left: Service -> Option<nat>, leftRuntime: string, seen: seq<Seen>)

  datatype Event = Recreated(services: seq<Service>) | SawHealthy(service: Service)

  /** The last state an inspection must show, looking at one after the other. */
  predicate BecomesHealthy(seen: seq<Seen>, healthcheck: bool) {
    seen != [] && !seen[0].Broken?
    && ((seen[0].State? && (seen[0].state == "healthy" || (!healthcheck && seen[0].state == "running")))
        || (!(seen[0].State? && (seen[0].state == "exited" || seen[0].state == "dead")) && BecomesHealthy(seen[1..], healthcheck)))
  }

  /** Waiting succeeds exactly if some inspection shows `healthy`, or, without a health check,
      `running`, and none before it shows a dead container or fails to list one. */
  lemma {:induction false} BecomesHealthyExactly(seen: seq<Seen>, healthcheck: bool)
    ensures BecomesHealthy(seen, healthcheck) <==>
            exists k :: 0 <= k < |seen| && (seen[k] == State("healthy") || (!healthcheck && seen[k] == State("running")))
                        && forall j :: 0 <= j < k ==> seen[j] !in {Broken, State("exited"), State("dead")}
  {
    if seen != [] {
      var rest := seen[1..];
      BecomesHealthyExactly(rest, healthcheck);
      if BecomesHealthy(rest, healthcheck) {
        var k :| 0 <= k < |rest| && (rest[k] == State("healthy") || (!healthcheck && rest[k] == State("running")))
                 && forall j :: 0 <= j < k ==> rest[j] !in {Broken, State("exited"), State("dead")};
        assert seen[k + 1] == rest[k] && forall j :: 0 < j < k + 1 ==> seen[j] == rest[j - 1];
      }
      forall k | 0 < k < |seen| && (seen[k] == State("healthy") || (!healthcheck && seen[k] == State("running")))
                 && forall j :: 0 <= j < k ==> seen[j] !in {Broken, State("exited"), State("dead")}
        ensures BecomesHealthy(rest, healthcheck)
      {
        assert rest[k - 1] == seen[k] && forall j :: 0 <= j < k - 1 ==> rest[j] == seen[j + 1];
      }
    }
  }

  /** The text the updater reads from the environment file. */
  function ReadText(env: Option<string>): string {
    if env.Some? then NormalizeNewlines(env.value) else ""
  }

  /** The containers after some services got new ones, or none. */
  function Recreate(running: map<Service, nat>, services: seq<Service>, image: Service -> Option<nat>): (r: map<Service, nat>)
    ensures forall s :: s !in services ==> (s in r <==> s in running) && (s in r ==> r[s] == running[s])
    ensures forall s :: s in services ==> (s in r <==> image(s).Some?) && (s in r ==> r[s] == image(s).value)
  {
    map s: Service | (s in services && image(s).Some?) || (s !in services && s in running) ::
      if s in services then image(s).value else running[s]
  }

  datatype Override = Override(image: nat, runtime: Option<string>)

  class Host {
    const fate: nat -> Fate
    /** The deployment's compose file: a service's configuration under an environment file. */
    const compose: (Option<string>, Service) -> Option<ServiceConfig>
    /** The source fingerprint of an image, if it has one. */
    const source: nat -> Option<string>
    var clock: nat
    var env: Option<string>
    var tags: map<string, nat>
    var running: map<Service, nat>
    /** The runtime image the sandbox container was told to use. */
    var runtime: string
    ghost var events: seq<Event>

    constructor (fate: nat -> Fate, compose: (Option<string>, Service) -> Option<ServiceConfig>, source: nat -> Option<string>,
                 env: Option<string>, tags: map<string, nat>, running: map<Service, nat>, runtime: string)
      ensures this.fate == fate && this.compose == compose && this.source == source
      ensures this.env == env && this.tags == tags && this.running == running && this.runtime == runtime && events == []
    {
      this.fate, this.compose, this.source := fate, compose, source;
      this.clock, this.env, this.tags, this.running, this.runtime := 0, env, tags, running, runtime;
      events := [];
    }

    /** No command fails, and what is inspected turns out well. */
    ghost predicate AllWell() {
      forall n :: fate(n).works && fate(n).tag.Some? && BecomesHealthy(fate(n).seen, true) && BecomesHealthy(fate(n).seen, false)
    }

    /** The source of the release: of whatever the first pull brings. */
    function ReleaseSource(): Option<string> {
      if fate(0).tag.Some? then source(fate(0).tag.value) else None
    }

    /** Every image that is pulled is built from that one source. */
    ghost predicate OneSource() {
      ReleaseSource().Some? && forall n :: fate(n).tag.Some? ==> source(fate(n).tag.value) == ReleaseSource()
    }

    /** A command without effect on what the model keeps. */
    method Ask() returns (ok: bool)
      modifies this`clock
      ensures AllWell() ==> ok
    {
      ok := fate(clock).works;
      clock := clock + 1;
    }

    method Pull(image: string) returns (ok: bool)
      modifies this`clock, this`tags
      ensures (ok ==> image in tags) && (AllWell() ==> ok)
      ensures ok && OneSource() ==> source(tags[image]) == ReleaseSource()
      ensures forall other :: other != image ==> (other in tags <==> other in old(tags)) && (other in tags ==> tags[other] == old(tags)[other])
    {
      var f := fate(clock);
      clock := clock + 1;
      if f.tag.Some? {
        tags := tags[image := f.tag.value];
      }
      ok := f.works && f.tag.Some?;
    }

    /** The image of a service's container; None if it has none. */
    method Snapshot(service: Service) returns (ok: bool, image: Option<nat>)
      modifies this`clock
      ensures ok ==> image == if service in running then Some(running[service]) else None
      ensures AllWell() ==> ok
    {
      ok := Ask();
      image := if service in running then Some(running[service]) else None;
    }

    /** Replaces the file as a whole, or leaves it. */
    method WriteEnv(content: Option<string>) returns (ok: bool)
      modifies this`clock, this`env
      ensures env == if ok then content else old(env)
      ensures AllWell() ==> ok
    {
      ok := Ask();
      if ok {
        env := content;
      }
    }

    method WriteEnvKey(key: string, value: string) returns (ok: bool)
      modifies this`clock, this`env
      ensures env == if ok then Some(Written(ReadText(old(env)), key, value)) else old(env)
      ensures AllWell() ==> ok
    {
      var content := WriteEnvValue(ReadText(env), key, value);
      ok := WriteEnv(Some(content));
    }

    /** The image id a service would run, if it can be started at all. */
    function Wanted(service: Service, overrides: map<Service, Override>): Option<nat>
      reads this
    {
      if service in overrides then Some(overrides[service].image)
      else
        match compose(env, service)
        case None => None
        case Some(c) => if c.image in tags then Some(tags[c.image]) else None
    }

    function WantedRuntime(overrides: map<Service, Override>): string
      reads this
    {
      if Sandbox in overrides && overrides[Sandbox].runtime.Some? then overrides[Sandbox].runtime.value
      else if compose(env, Sandbox).Some? then compose(env, Sandbox).value.runtime
      else ""
    }

    /** Recreates services. A failure may have recreated or removed any of them. */
    method ComposeUp(services: seq<Service>, overrides: map<Service, Override>) returns (ok: bool)
      modifies this`clock, this`running, this`runtime, this`events
      ensures forall s :: s !in services ==> (s in running <==> s in old(running)) && (s in running ==> running[s] == old(running)[s])
      ensures Sandbox !in services ==> runtime == old(runtime)
      ensures ok ==> forall s :: s in services ==> s in running && Some(running[s]) == old(Wanted(s, overrides))
      ensures ok && Sandbox in services ==> runtime == old(WantedRuntime(overrides))
      ensures events == old(events) + (if ok then [Recreated(services)] else [])
      ensures AllWell() && (forall s :: s in services ==> old(Wanted(s, overrides)).Some?) ==> ok
    {
      var f := fate(clock);
      var wants := map s: Service | s in services :: Wanted(s, overrides);
      var wantedRuntime := WantedRuntime(overrides);
      ok := f.works && forall s :: s in services ==> wants[s].Some?;
      assert AllWell() ==> f.works;
      hide BecomesHealthy, AllWell, Wanted, WantedRuntime;
      clock := clock + 1;
      runtime := if Sandbox !in services then runtime else if ok then wantedRuntime else f.leftRuntime;
      var made := (s: Service) => if ok && s in wants then wants[s] else f.left(s);
      running := Recreate(running, services, made);
      events := events + if ok then [Recreated(services)] else [];
    }

    method WaitHealthy(service: Service, healthcheck: bool) returns (ok: bool)
      modifies this`clock, this`events
      ensures ok == BecomesHealthy(fate(old(clock)).seen, healthcheck) && (AllWell() ==> ok)
      ensures events == old(events) + (if ok then [SawHealthy(service)] else [])
    {
      var seen := fate(clock).seen;
      clock := clock + 1;
      ok := false;
      var k := 0;
      while k < |seen|
        modifies this`clock
        invariant 0 <= k <= |seen| && !ok
        invariant BecomesHealthy(seen, healthcheck) == BecomesHealthy(seen[k..], healthcheck)
      {
        assert seen[k..][1..] == seen[k + 1..];
        var last := seen[k];
        if last.Broken? {
          break;
        }
        if last.State? && (last.state == "healthy" || (!healthcheck && last.state == "running")) {
          ok := true;
          break;
        }
        if last.State? && (last.state == "exited" || last.state == "dead") {
          break;
        }
        k := k + 1;
      }
      events := events + if ok then [SawHealthy(service)] else [];
    }
  }

  // ---------------------------------------------------------------------------------------
  // The manager

  /** The sandbox part of an update: what its two services run now, the runtime image the
      sandbox uses, and the source fingerprint of the new release. */
  datatype Plan = Plan(sandbox: nat, keepalive: nat, runtime: string, source: string)

  datatype Planned = PlanFailed | Leave | Replace(plan: Plan)

  /** What an attempt leaves for its rollback. */
  datatype Attempt = Attempt(done: bool, original: Option<string>, envChanged: bool, restarted: seq<Service>,
                             snapshots: map<Service, nat>, plan: Option<Plan>)

  /** The environment file after a successful update. */
  function UpdatedEnv(env: Option<string>, version: string, sandbox: bool): Option<string> {
    var app := Written(ReadText(env), "APP_IMAGE_TAG", version);
    Some(if sandbox then Written(ReadText(Some(app)), "SANDBOX_IMAGE_TAG", version) else app)
  }

  /** The environment file after a rollback. */
  function RestoredEnv(env: Option<string>): Option<string> {
    if env.None? then None else Some(NormalizeNewlines(env.value))
  }

  class UpdateManager {
    const host: Host
    /** The registry and owner every image of the project starts with. */
    const prefix: string
    var status: Status
    ghost var statuses: seq<Status>

    constructor (host: Host, prefix: string, saved: Status)
      ensures this.host == host && this.prefix == prefix && statuses == []
      ensures status == if Busy(saved) then Failed else saved
      ensures forall m: Manager :: m.status == saved ==> Step(m, Manager(status, 0))
    {
      this.host, this.prefix := host, prefix;
      status := if Busy(saved) then Failed else saved;
      statuses := [];
    }

    function AppImage(version: string): string { prefix + "aivory-app:" + version }
    function SidecarImage(version: string): string { prefix + "aivory-sandbox-sidecar:" + version }
    function RuntimeImage(version: string): string { prefix + "aivory-sandbox:" + version }

    method Set(s: Status)
      modifies this
      ensures status == s && statuses == old(statuses) + [s]
    {
      status := s;
      statuses := statuses + [s];
    }

    /** Admits an update unless one is in progress. */
    method Start() returns (started: bool)
      modifies this
      ensures started == !old(Busy(status))
      ensures if started then status == Pulling && statuses == old(statuses) + [Pulling]
              else status == old(status) && statuses == old(statuses)
      ensures forall m: Manager :: m.status == old(status) ==> Step(m, Started(m, started)) && Started(m, started).status == status
    {
      if Busy(status) {
        return false;
      }
      Set(Pulling);
      return true;
    }

    /** The deployment's sandbox is the bundled one, and it runs. */
    predicate Bundled()
      reads host`env, host`running, host`runtime
    {
      && host.compose(host.env, Sandbox).Some? && prefix + "aivory-sandbox-sidecar:" <= host.compose(host.env, Sandbox).value.image
      && Sandbox in host.running && prefix + "aivory-sandbox:" <= host.runtime
    }

    predicate KeepaliveRuns()
      reads host`env, host`running
    {
      host.compose(host.env, Keepalive).Some? && Keepalive in host.running
    }

    /** The source of the runtime image: of the container that keeps it, or else of its tag. */
    function RuntimeSource(): Option<string>
      reads host`env, host`running, host`runtime, host`tags
    {
      if KeepaliveRuns() then host.source(host.running[Keepalive])
      else if host.runtime in host.tags then host.source(host.tags[host.runtime]) else None
    }

    /** Both sandbox images in use are built from the source `release`. */
    predicate Current(release: Option<string>)
      reads host`env, host`running, host`runtime, host`tags
      requires Sandbox in host.running
    {
      release == host.source(host.running[Sandbox]) == RuntimeSource()
    }

    /** All sources that must be compared are known, and what must be replaced runs. */
    predicate Plannable(release: Option<string>)
      reads host`env, host`running, host`runtime, host`tags
    {
      Bundled() ==>
        && release.Some? && host.source(host.running[Sandbox]).Some? && RuntimeSource().Some?
        && (Current(release) || KeepaliveRuns())
    }

    /** Whether the bundled sandbox must be replaced too: exactly if it runs, and its own source
        or its runtime's differs from the release's. */
    method SandboxPlan(appImage: nat) returns (r: Planned)
      modifies host`clock
      ensures r.Leave? ==> Bundled() ==> host.source(appImage).Some? && Current(host.source(appImage))
      ensures r.Replace? ==>
                && Bundled() && !Current(host.source(appImage)) && Keepalive in host.running
                && r.plan == Plan(host.running[Sandbox], host.running[Keepalive], host.runtime, r.plan.source)
                && host.source(appImage) == Some(r.plan.source)
      ensures host.AllWell() ==> (r.PlanFailed? <==> !Plannable(host.source(appImage)))
    {
      var config := host.compose(host.env, Sandbox);
      if config.None? || !(prefix + "aivory-sandbox-sidecar:" <= config.value.image) {
        return Leave;
      }
      var ok, sandbox := host.Snapshot(Sandbox);
      if !ok {
        return PlanFailed;
      }
      if sandbox.None? || !(prefix + "aivory-sandbox:" <= host.runtime) {
        return Leave;
      }
      var target, current := host.source(appImage), host.source(sandbox.value);
      if target.None? || current.None? {
        return PlanFailed;
      }
      var keepalive: Option<nat> := None;
      if host.compose(host.env, Keepalive).Some? {
        ok, keepalive := host.Snapshot(Keepalive);
        if !ok {
          return PlanFailed;
        }
      }
      var runtime := if keepalive.Some? then host.source(keepalive.value)
                     else if host.runtime in host.tags then host.source(host.tags[host.runtime]) else None;
      if runtime.None? {
        return PlanFailed;
      }
      if target == current == runtime {
        return Leave;
      }
      if keepalive.None? {
        return PlanFailed;
      }
      return Replace(Plan(sandbox.value, keepalive.value, host.runtime, target.value));
    }

    /** Pulls a sandbox image and checks that it is built from the release's source. */
    method PullSandbox(image: string, source: string) returns (ok: bool)
      modifies host`clock, host`tags
      ensures ok ==> image in host.tags && host.source(host.tags[image]) == Some(source)
      ensures host.AllWell() && host.OneSource() && host.ReleaseSource() == Some(source) ==> ok
      ensures forall other :: other != image ==>
                (other in host.tags <==> other in old(host.tags)) && (other in host.tags ==> host.tags[other] == old(host.tags)[other])
    {
      ok := host.Pull(image);
      ok := ok && host.source(host.tags[image]) == Some(source);
    }

    /** Pulls the application's image, which says nothing new of what runs now. */
    method PullApp(version: string) returns (ok: bool)
      modifies host`clock, host`tags
      ensures ok ==> AppImage(version) in host.tags
      ensures ok && host.OneSource() ==> host.source(host.tags[AppImage(version)]) == host.ReleaseSource()
      ensures Outdated() == old(Outdated()) && Startable() == old(Startable())
      ensures host.AllWell() ==> ok
    {
      ok := host.Pull(AppImage(version));
      assert Bundled() ==> host.runtime != AppImage(version) by {
        if Bundled() {
          assert host.runtime[|prefix| + 7] == 's' && AppImage(version)[|prefix| + 7] == 'a';
        }
      }
    }

    /** Pulls both sandbox images; the application's stays as it is. */
    method PullBoth(version: string, source: string) returns (ok: bool)
      modifies host`clock, host`tags
      ensures old(AppImage(version) in host.tags) ==>
                AppImage(version) in host.tags && host.tags[AppImage(version)] == old(host.tags[AppImage(version)])
      ensures ok ==>
                && SidecarImage(version) in host.tags && RuntimeImage(version) in host.tags
                && host.source(host.tags[SidecarImage(version)]) == host.source(host.tags[RuntimeImage(version)]) == Some(source)
      ensures host.AllWell() && host.OneSource() && host.ReleaseSource() == Some(source) ==> ok
    {
      ImagesDiffer(version);
      hide AppImage, SidecarImage, RuntimeImage;
      ok := PullSandbox(SidecarImage(version), source);
      if ok {
        ok := PullSandbox(RuntimeImage(version), source);
      }
    }

    /** What an attempt that did not get through leaves to be undone. */
    ghost predicate Undoable(a: Attempt, env: Option<string>, running: map<Service, nat>, runtime: string)
      reads host
    {
      && (a.envChanged ==> a.original == RestoredEnv(env))
      && (!a.envChanged ==> host.env == env && a.restarted == [])
      && (forall s :: s in a.restarted ==> s in running && s in a.snapshots && a.snapshots[s] == running[s])
      && (Sandbox in a.restarted ==> a.plan.Some? && a.plan.value.runtime == runtime)
      && (forall s :: s !in a.restarted ==> (s in host.running <==> s in running) && (s in running ==> host.running[s] == running[s]))
      && (Sandbox !in a.restarted ==> host.runtime == runtime)
    }

    /** The images of the new release are there, and the sandbox's are built from its source. */
    ghost predicate Pulled(a: Attempt, version: string)
      reads host
    {
      && AppImage(version) in host.tags && App in a.snapshots
      && (a.plan.Some? ==>
          && Sandbox in a.snapshots && Keepalive in a.snapshots
          && SidecarImage(version) in host.tags && RuntimeImage(version) in host.tags
          && host.source(host.tags[SidecarImage(version)]) == host.source(host.tags[RuntimeImage(version)])
             == host.source(host.tags[AppImage(version)]) == Some(a.plan.value.source))
    }

    /** The compose file, under this environment file, names the new images. */
    ghost predicate Follows(env: Option<string>, version: string, sandbox: bool)
    {
      && (var c := host.compose(env, App); c.Some? && c.value.image == AppImage(version))
      && (sandbox ==>
          var c, k := host.compose(env, Sandbox), host.compose(env, Keepalive);
          c.Some? && k.Some? && c.value == ServiceConfig(SidecarImage(version), RuntimeImage(version)) && k.value.image == RuntimeImage(version))
    }

    ghost predicate Configured(version: string, sandbox: bool)
      reads host
    {
      Follows(host.env, version, sandbox)
    }

    /** Writes the new tags and checks that the deployment follows them. */
    method ChangeEnv(version: string, a: Attempt) returns (b: Attempt, good: bool)
      requires !a.envChanged
      modifies host`clock, host`env
      ensures b.plan == a.plan && b.snapshots == a.snapshots && b.restarted == a.restarted && b.done == a.done
      ensures if b.envChanged then b.original == RestoredEnv(old(host.env)) else host.env == old(host.env)
      ensures good ==> b.envChanged && host.env == UpdatedEnv(old(host.env), version, a.plan.Some?) && Configured(version, a.plan.Some?)
      ensures host.AllWell() && Follows(UpdatedEnv(old(host.env), version, a.plan.Some?), version, a.plan.Some?) ==> good
    {
      b, good := a, false;
      var ok := host.Ask();
      if !ok {
        return;
      }
      b := b.(original := RestoredEnv(host.env), envChanged := true);
      ok := host.WriteEnvKey("APP_IMAGE_TAG", version);
      if ok && a.plan.Some? {
        ok := host.WriteEnvKey("SANDBOX_IMAGE_TAG", version);
      }
      if ok {
        ok := host.Ask();
      }
      if !ok {
        return;
      }
      var app := host.compose(host.env, App);
      if app.None? || app.value.image != AppImage(version) {
        return;
      }
      if a.plan.Some? {
        var sandbox, keepalive := host.compose(host.env, Sandbox), host.compose(host.env, Keepalive);
        if sandbox.None? || keepalive.None? || sandbox.value.image != SidecarImage(version)
           || sandbox.value.runtime != RuntimeImage(version) || keepalive.value.image != RuntimeImage(version) {
          return;
        }
      }
      good := true;
    }

    method RecreateSandbox(version: string, a: Attempt) returns (ok: bool)
      requires a.plan.Some? && Pulled(a, version) && Configured(version, true)
      modifies host`clock, host`running, host`runtime, host`events
      ensures forall s :: s !in [Keepalive, Sandbox] ==>
                (s in host.running <==> s in old(host.running)) && (s in host.running ==> host.running[s] == old(host.running)[s])
      ensures ok ==>
                && Sandbox in host.running && host.running[Sandbox] == host.tags[SidecarImage(version)]
                && Keepalive in host.running && host.running[Keepalive] == host.tags[RuntimeImage(version)]
                && host.runtime == RuntimeImage(version)
                && host.events == old(host.events) + [Recreated([Keepalive, Sandbox])]
      ensures host.AllWell() ==> ok
    {
      hide BecomesHealthy, Host.AllWell, AppImage, SidecarImage, RuntimeImage;
      ok := host.ComposeUp([Keepalive, Sandbox], map[]);
    }

    /** Recreates the sandbox's services and waits until they are well. */
    method ReplaceSandbox(version: string, a: Attempt) returns (b: Attempt, good: bool)
      requires a.plan.Some? && Pulled(a, version) && Configured(version, true) && Busy(status) && a.restarted == []
      modifies this, host`clock, host`running, host`runtime, host`events
      ensures b == a.(restarted := [Keepalive, Sandbox])
      ensures OnlyBusy(statuses, old(statuses)) && Busy(status)
      ensures forall s :: s !in b.restarted ==>
                (s in host.running <==> s in old(host.running)) && (s in host.running ==> host.running[s] == old(host.running)[s])
      ensures good ==>
                && Sandbox in host.running && host.running[Sandbox] == host.tags[SidecarImage(version)]
                && Keepalive in host.running && host.running[Keepalive] == host.tags[RuntimeImage(version)]
                && host.runtime == RuntimeImage(version)
                && host.events == old(host.events) + [Recreated([Keepalive, Sandbox]), SawHealthy(Keepalive), SawHealthy(Sandbox)]
      ensures host.AllWell() ==> good
    {
      hide BecomesHealthy, Host.AllWell, AppImage, SidecarImage, RuntimeImage, Configured, Follows;
      good := false;
      Set(Restarting);
      b := a.(restarted := [Keepalive, Sandbox]);
      var ok := RecreateSandbox(version, a);
      if !ok {
        return;
      }
      Set(Checking);
      ok := host.WaitHealthy(Keepalive, false);
      if ok {
        ok := host.WaitHealthy(Sandbox, true);
      }
      if !ok {
        return;
      }
      Set(Checking);
      good := true;
    }

    /** Recreates the application and waits until it is well. */
    method ReplaceApp(version: string, a: Attempt) returns (b: Attempt)
      requires Pulled(a, version) && Configured(version, false) && Busy(status)
      modifies this, host`clock, host`running, host`runtime, host`events
      ensures b == a.(restarted := a.restarted + [App], done := b.done)
      ensures OnlyBusy(statuses, old(statuses)) && Busy(status) && host.runtime == old(host.runtime)
      ensures forall s :: s != App ==>
                (s in host.running <==> s in old(host.running)) && (s in host.running ==> host.running[s] == old(host.running)[s])
      ensures b.done ==>
                && App in host.running && host.running[App] == host.tags[AppImage(version)]
                && host.events == old(host.events) + [Recreated([App]), SawHealthy(App)]
      ensures host.AllWell() ==> b.done
    {
      hide BecomesHealthy, Host.AllWell, AppImage, SidecarImage, RuntimeImage;
      Set(Restarting);
      b := a.(restarted := a.restarted + [App], done := false);
      var ok := host.ComposeUp([App], map[]);
      if !ok {
        return;
      }
      Set(Checking);
      ok := host.WaitHealthy(App, true);
      b := b.(done := ok);
    }

    /** Pulls what the update needs. */
    method Prepare(version: string) returns (a: Attempt, good: bool)
      requires Busy(status)
      modifies this, host`clock, host`tags
      ensures OnlyBusy(statuses, old(statuses)) && Busy(status)
      ensures !a.envChanged && a.restarted == [] && !a.done
      ensures forall s :: s in a.snapshots ==> s in host.running && a.snapshots[s] == host.running[s]
      ensures a.plan.Some? ==> a.plan.value.runtime == host.runtime
      ensures good ==> Pulled(a, version)
      ensures host.AllWell() && old(Startable()) ==> good && (a.plan.Some? <==> old(Outdated()))
    {
      hide BecomesHealthy, Host.AllWell, Host.OneSource, Host.ReleaseSource, AppImage, SidecarImage, RuntimeImage, Bundled, Current, Plannable, RuntimeSource;
      a, good := Attempt(false, None, false, [], map[], None), false;
      var ok, app := PrepareApp(version);
      if !ok || app.None? {
        return;
      }
      a := a.(snapshots := map[App := app.value]);
      Set(Pulling);
      var planned := SandboxPlan(host.tags[AppImage(version)]);
      if planned.PlanFailed? {
        return;
      }
      if planned.Replace? {
        Set(Pulling);
        ok := PullBoth(version, planned.plan.source);
        if !ok {
          return;
        }
        a := a.(plan := Some(planned.plan), snapshots := map[App := app.value, Sandbox := planned.plan.sandbox, Keepalive := planned.plan.keepalive]);
      }
      good := true;
    }

    /** Pulls the application's image and looks at the container that runs. */
    method PrepareApp(version: string) returns (ok: bool, app: Option<nat>)
      modifies host`clock, host`tags
      ensures ok ==> AppImage(version) in host.tags && app == if App in host.running then Some(host.running[App]) else None
      ensures ok && host.OneSource() ==> host.source(host.tags[AppImage(version)]) == host.ReleaseSource()
      ensures Outdated() == old(Outdated()) && Startable() == old(Startable())
      ensures host.AllWell() ==> ok
    {
      hide BecomesHealthy, Host.AllWell, Host.OneSource, Host.ReleaseSource, AppImage, Bundled, Current, Plannable, RuntimeSource;
      app := None;
      ok := host.Ask();
      if ok {
        ok := PullApp(version);
      }
      if !ok {
        return;
      }
      ok := host.Ask();
      if ok {
        ok, app := host.Snapshot(App);
      }
    }

    lemma ImagesDiffer(version: string)
      ensures AppImage(version) != SidecarImage(version) && AppImage(version) != RuntimeImage(version)
              && SidecarImage(version) != RuntimeImage(version)
    {
      assert AppImage(version)[|prefix| + 7] == 'a' && SidecarImage(version)[|prefix| + 7] == 's' && RuntimeImage(version)[|prefix| + 7] == 's';
      assert SidecarImage(version)[|prefix| + 14] == '-' && RuntimeImage(version)[|prefix| + 14] == ':';
    }

    /** The bundled sandbox runs, from another source than the release's. */
    predicate Outdated()
      reads host`env, host`running, host`runtime, host`tags
    {
      Bundled() && !Current(host.ReleaseSource())
    }

    /** The application runs, the pulled images are of one release, and what must be known of
        the sandbox's images is known. */
    ghost predicate Startable()
      reads host`env, host`running, host`runtime, host`tags
    {
      App in host.running && host.OneSource() && Plannable(host.ReleaseSource())
    }

    /** And the compose file takes the images to be replaced from the tags in the environment file. */
    ghost predicate Updatable(version: string)
      reads host
    {
      Startable() && Follows(UpdatedEnv(host.env, version, Outdated()), version, Outdated())
    }

    /** Everything up to the last health check. */
    method TryRun(version: string) returns (a: Attempt)
      requires Busy(status)
      modifies this, host
      ensures Undoable(a, old(host.env), old(host.running), old(host.runtime))
      ensures OnlyBusy(statuses, old(statuses)) && Busy(status)
      ensures a.done ==> Updated(version, a.plan.Some?, old(host.env)) && host.events == old(host.events) + Steps(a.plan.Some?)
      ensures a.done && a.plan.None? ==> OthersAsBefore(old(host.running))
      ensures host.AllWell() && old(Updatable(version)) ==> a.done && (a.plan.Some? <==> old(Outdated()))
    {
      hide BecomesHealthy, Host.AllWell;
      var good;
      a, good := Prepare(version);
      if !good {
        return;
      }
      a, good := ChangeEnv(version, a);
      if !good {
        return;
      }
      hide UpdatedEnv, RestoredEnv;
      a := Deploy(version, a);
    }

    /** The services of the update, the sandbox's before the application. */
    method Deploy(version: string, a: Attempt) returns (b: Attempt)
      requires Pulled(a, version) && Configured(version, a.plan.Some?) && Busy(status) && a.restarted == [] && !a.done
      modifies this, host`clock, host`running, host`runtime, host`events
      ensures b == a.(restarted := b.restarted, done := b.done) && forall s :: s in b.restarted ==> s in a.snapshots
      ensures Sandbox in b.restarted ==> a.plan.Some?
      ensures OnlyBusy(statuses, old(statuses)) && Busy(status)
      ensures forall s :: s !in b.restarted ==>
                (s in host.running <==> s in old(host.running)) && (s in host.running ==> host.running[s] == old(host.running)[s])
      ensures Sandbox !in b.restarted ==> host.runtime == old(host.runtime)
      ensures b.done ==> Deployed(version, a.plan.Some?) && host.events == old(host.events) + Steps(a.plan.Some?)
      ensures b.done && a.plan.None? ==> OthersAsBefore(old(host.running))
      ensures host.AllWell() ==> b.done
    {
      hide BecomesHealthy, Host.AllWell;
      b := a;
      if a.plan.Some? {
        var good;
        b, good := ReplaceSandbox(version, b);
        if !good {
          return;
        }
      }
      b := ReplaceApp(version, b);
    }

    /** The new release runs: the application has its image, and the sandbox, where it was
        replaced, images of the same source. */
    ghost predicate Deployed(version: string, sandbox: bool)
      reads host
    {
      && AppImage(version) in host.tags && App in host.running && host.running[App] == host.tags[AppImage(version)]
      && (sandbox ==>
          && Sandbox in host.running && Keepalive in host.running && host.runtime == RuntimeImage(version)
          && host.source(host.running[App]).Some?
          && host.source(host.running[Sandbox]) == host.source(host.running[Keepalive]) == host.source(host.running[App]))
    }

    /** And the environment file has its tags. */
    ghost predicate Updated(version: string, sandbox: bool, env: Option<string>)
      reads host
    {
      host.env == UpdatedEnv(env, version, sandbox) && Deployed(version, sandbox)
    }

    ghost predicate OthersAsBefore(running: map<Service, nat>)
      reads host
    {
      forall s :: s != App ==> (s in host.running <==> s in running) && (s in running ==> host.running[s] == running[s])
    }

    /** Puts the environment file and the containers back. */
    method RollBack(a: Attempt, ghost env: Option<string>, ghost running: map<Service, nat>, ghost runtime: string) returns (ok: bool)
      requires Busy(status) && Undoable(a, env, running, runtime)
      modifies this, host`clock, host`env, host`running, host`runtime, host`events
      ensures OnlyBusy(statuses, old(statuses)) && Busy(status)
      ensures ok ==> host.env == (if a.envChanged then RestoredEnv(env) else env) && host.running == running && host.runtime == runtime
      ensures host.AllWell() ==> ok
    {
      hide BecomesHealthy, Host.AllWell, RestoredEnv;
      ok := true;
      assert a.restarted == [] ==> host.running == running;
      if !a.envChanged {
        return;
      }
      Set(Restarting);
      ok := host.WriteEnv(a.original);
      if !ok || a.restarted == [] {
        return;
      }
      var overrides := map s | s in a.restarted :: Override(a.snapshots[s], if s.Sandbox? && a.plan.Some? then Some(a.plan.value.runtime) else None);
      ok := host.ComposeUp(a.restarted, overrides);
      assert ok ==> host.running == running by {
        assert forall s :: s in a.restarted ==> s in overrides;
        assert ok ==> forall s :: (s in host.running <==> s in running) && (s in running ==> host.running[s] == running[s]);
      }
      ghost var rebuilt := ok;
      var k := 0;
      while ok && k < |a.restarted|
        modifies host`clock, host`events
        invariant ok ==> rebuilt
        invariant host.AllWell() ==> ok
      {
        ok := host.WaitHealthy(a.restarted[k], a.restarted[k] != Keepalive);
        k := k + 1;
      }
      if ok && Sandbox in a.restarted {
        Set(Restarting);
      }
    }

    /** The whole update. `undone` says whether the rollback, if one was needed, went through. */
    method Run(version: string) returns (undone: bool, ghost sandbox: bool, ghost touched: bool)
      requires Busy(status)
      modifies this, host
      ensures status.Completed? || status.Failed?
      ensures |statuses| > |old(statuses)| && OnlyBusy(statuses[..|statuses| - 1], old(statuses)) && statuses[|statuses| - 1] == status
      ensures RunSteps(statuses, old(statuses))
      ensures status.Completed? ==> Updated(version, sandbox, old(host.env)) && host.events == old(host.events) + Steps(sandbox)
      ensures status.Completed? && !sandbox ==> OthersAsBefore(old(host.running))
      ensures status.Failed? && undone ==>
                && host.env == (if touched then RestoredEnv(old(host.env)) else old(host.env))
                && host.running == old(host.running) && host.runtime == old(host.runtime)
      ensures host.AllWell() ==> undone && (old(Updatable(version)) ==> status.Completed? && sandbox == old(Outdated()))
    {
      hide BecomesHealthy, Host.AllWell, RestoredEnv, RunSteps, Step, Undoable, Updated, Updatable, Outdated;
      var a := TryRun(version);
      LastStep(statuses, old(statuses), if a.done then Completed else Failed);
      sandbox, touched, undone := a.plan.Some?, a.envChanged, true;
      if a.done {
        Set(Completed);
        return;
      }
      undone := RollBack(a, old(host.env), old(host.running), old(host.runtime));
      LastStep(statuses, old(statuses), Failed);
      Set(Failed);
    }
  }

  /** What an update must have done, in this order. */
  function Steps(sandbox: bool): seq<Event> {
    (if sandbox then [Recreated([Keepalive, Sandbox]), SawHealthy(Keepalive), SawHealthy(Sandbox)] else [])
    + [Recreated([App]), SawHealthy(App)]
  }

  /** Only busy statuses have been set since. */
  ghost predicate OnlyBusy(now: seq<Status>, before: seq<Status>) {
    before <= now && forall k :: |before| <= k < |now| ==> Busy(now[k])
  }

  /** A rollback that goes through leaves the file's content as it was exactly if it held no
      carriage return: the file is read with universal newlines and written back as read. */
  lemma EnvRestoredExactly(env: Option<string>)
    ensures RestoredEnv(env) == env <==> env.None? || NoReturns(env.value)
  {
    if env.Some? {
      NormalizeDropsReturns(env.value);
    }
  }

  /** A file that a failed update changes. */
  lemma ReturnLost()
    ensures RestoredEnv(Some("\r\n")) == Some("\n") != Some("\r\n")
  {
    var s := "\r\n";
    assert s[0] == '\r' && s[1] == '\n' && s[2..] == "" && NormalizeNewlines("") == "";
    assert NormalizeNewlines(s) == "\n" + NormalizeNewlines(s[2..]) == "\n";
    assert |NormalizeNewlines(s)| != |s|;
  }

  /** What a completed update leaves in the file: each tag assigned once, to the version. */
  lemma UpdatedEnvAssigns(env: Option<string>, version: string, sandbox: bool)
    requires NoBreaks(version)
    ensures var lines := SplitLines(UpdatedEnv(env, version, sandbox).value);
            && Keeping(lines, "APP_IMAGE_TAG") == [Assignment("APP_IMAGE_TAG", version)]
            && (sandbox ==> Keeping(lines, "SANDBOX_IMAGE_TAG") == [Assignment("SANDBOX_IMAGE_TAG", version)])
  {
    var app, sb := "APP_IMAGE_TAG", "SANDBOX_IMAGE_TAG";
    assert IsKey(app) && IsKey(sb) && '=' !in app && '=' !in sb && app[0] != sb[0];
    assert NoReturns(ReadText(env)) by {
      if env.Some? {
        NormalizeDropsReturns(env.value);
      }
    }
    var first := Written(ReadText(env), app, version);
    WrittenWithoutReturns(ReadText(env), app, version);
    NormalizeDropsReturns(first);
    assert UpdatedEnv(env, version, sandbox) == Some(if sandbox then Written(first, sb, version) else first);
    AssignmentEnds(app, version);
    hide *;
    WrittenAssignsOnce(ReadText(env), app, version);
    WrittenAssignsOnce(first, sb, version);
    WrittenKeepsOther(first, sb, version, app, Assignment(app, version));
  }

  lemma AssignmentEnds(key: string, value: string)
    ensures EndsInNewline(Assignment(key, value))
  {}

  // ---------------------------------------------------------------------------------------
  // At most one update at a time

  /** The manager's status and the number of update threads alive. */
  datatype Manager = Manager(status: Status, runs: nat)

  /** One call of `start`, one status set by a running update, its last one, or a restart of
      the process, which ends every thread. */
  ghost predicate Step(m: Manager, n: Manager) {
    || (!Busy(m.status) && n == Manager(Pulling, m.runs + 1))
    || (Busy(m.status) && n == m)
    || (m.runs > 0 && Busy(n.status) && n.runs == m.runs)
    || (m.runs > 0 && !Busy(n.status) && n.runs == m.runs - 1)
    || n == Manager(if Busy(m.status) then Failed else m.status, 0)
  }

  function Started(m: Manager, started: bool): Manager {
    if started then Manager(Pulling, m.runs + 1) else m
  }

  /** A running update has set a status; with the last one its thread ends. */
  function Wrote(m: Manager, s: Status, last: bool): Manager {
    Manager(s, if last && m.runs > 0 then m.runs - 1 else m.runs)
  }

  /** Every status that an update sets is a step, whatever happened since its previous one. */
  ghost predicate RunSteps(now: seq<Status>, before: seq<Status>) {
    forall k, m: Manager :: |before| <= k < |now| && m.runs > 0 ==> Step(m, Wrote(m, now[k], k == |now| - 1))
  }

  lemma LastStep(now: seq<Status>, before: seq<Status>, s: Status)
    requires OnlyBusy(now, before) && !Busy(s)
    ensures RunSteps(now + [s], before)
  {}

  ghost predicate StepAt(ms: seq<Manager>, k: nat)
    requires k + 1 < |ms|
  {
    Step(ms[k], ms[k + 1])
  }

  /** Whatever is called and whenever it restarts, at most one update is alive, and one is
      exactly while the status says so. */
  lemma {:induction false} AtMostOneRun(ms: seq<Manager>, k: nat)
    requires k < |ms| && !Busy(ms[0].status) && ms[0].runs == 0
    requires forall i: nat :: i + 1 < |ms| ==> StepAt(ms, i)
    ensures ms[k].runs <= 1 && (ms[k].runs == 1 <==> Busy(ms[k].status))
  {
    if k > 0 {
      AtMostOneRun(ms, k - 1);
      assert StepAt(ms, k - 1);
    }
  }
}
