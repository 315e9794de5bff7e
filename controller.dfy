/**
 * controllers/conditionalttl_controller.go: resolving targets against the
 * cluster, the three finalizers, and the reconciliation pass over one
 * ConditionalTTL.
 *
 * The cluster, the Helm client, the CloudEvents client and CEL enter as
 * collaborators (functions of their inputs); what the controller asks of
 * them is recorded as a sequence of effects.
 */
module Controller {
  import opened Wrappers
  import opened CelValues
  import opened Sorting
  import opened ApiTypes
  import opened Cel

  /** A Kubernetes API error; IsNotFound is `notFound`. */
  datatype ApiError = ApiError(notFound: bool, message: string)

  /** One page of a List call. */
  datatype Listing = Listing(items: seq<Value>, continueToken: string)

  /**
   * The Kubernetes API as the controller uses it for targets: get by
   * apiVersion, kind, name and namespace; parse a label selector; list by
   * apiVersion, kind, selector and namespace; delete an object.
   */
  datatype Cluster = Cluster(
    get: (string, string, string, string) -> Result<Value, ApiError>,
    parseSelector: LabelSelector -> Option<string>,
    list: (string, string, LabelSelector, string) -> Result<Listing, ApiError>,
    delete: Value -> Option<ApiError>)

  /** What uninstalling a Helm release (including setting up the Helm client) came to. */
  datatype UninstallOutcome = Uninstalled | ReleaseNotFound | HelmFailed(message: string)

  /** The deletion event: source, type, time and the data fields name, namespace and targets. */
  datatype CloudEvent = CloudEvent(
    source: string,
    eventType: string,
    time: int,
    name: string,
    namespace: string,
    targets: seq<TargetStatus>)

  const EventSource := "cleaner.vtex.io/finalizer"
  const EventType := "conditionalTTL.deleted"

  /** What the controller asks of the world outside the ConditionalTTL. */
  datatype Effect =
    | DeleteObject(obj: Value)
    | UninstallRelease(release: string)
    | SendEvent(sink: string, event: CloudEvent)

  /** The requests made by a step and the error it stopped at, if any. */
  datatype Run = Run(effects: seq<Effect>, error: Option<string>)

  /** r, and then `next` unless r failed. */
  function Then(r: Run, next: Run): (s: Run)
    ensures r.error.Some? ==> s == r
    ensures r.error.None? ==> s.effects == r.effects + next.effects && s.error == next.error
  {
    if r.error.Some? then r else Run(r.effects + next.effects, next.error)
  }

  /** %q for names made of printable characters. */
  function Quote(s: string): string
  {
    "\"" + s + "\""
  }

  const UnexpectedContinue := "r.List: unexpected continuation token"

  function NoReferenceMessage(target: string): string
  {
    "Target " + Quote(target) + " reference Name and LabelSelector can't both be nil"
  }

  /** What a reference resolves to: one object, or a list of them. */
  datatype Resolution = Single(obj: Value) | Collection(items: seq<Value>)

  /** The state recorded for a resolution: the object, or the list with its items. */
  function StateOf(r: Resolution): Value
  {
    match r
    case Single(o) => o
    case Collection(items) => Map(map["items" := List(items)])
  }

  /**
   * resolveTarget: by name when a name is set (the label selector is then
   * ignored), otherwise by label selector; a collection split over pages
   * is an error.
   */
  function ResolveTarget(cluster: Cluster, namespace: string, t: Target): (r: Result<Resolution, ApiError>)
    ensures t.reference.name.Some? && r.Success? ==> r.value.Single?
    ensures t.reference.name.None? && r.Success? ==> r.value.Collection?
    ensures t.reference.name.None? && t.reference.labelSelector.None? ==>
      r == Failure(ApiError(false, NoReferenceMessage(t.name)))
  {
    var ref := t.reference;
    if ref.name.Some? then
      match cluster.get(ref.apiVersion, ref.kind, ref.name.value, namespace)
      case Failure(err) => Failure(err)
      case Success(u) => Success(Single(u))
    else if ref.labelSelector.None? then
      Failure(ApiError(false, NoReferenceMessage(t.name)))
    else
      var selector := ref.labelSelector.value;
      match cluster.parseSelector(selector)
      case Some(msg) => Failure(ApiError(false, msg))
      case None =>
        match cluster.list(ref.apiVersion, ref.kind, selector, namespace)
        case Failure(err) => Failure(err)
        case Success(listing) =>
          if listing.continueToken != "" then Failure(ApiError(false, UnexpectedContinue))
          else Success(Collection(listing.items))
  }

  /** When a name is set the label selector is ignored, and the named object must exist. */
  lemma ResolveTargetByName(cluster: Cluster, namespace: string, t: Target, other: Option<LabelSelector>)
    requires t.reference.name.Some?
    ensures ResolveTarget(cluster, namespace, t) ==
      ResolveTarget(cluster, namespace, t.(reference := t.reference.(labelSelector := other)))
    ensures ResolveTarget(cluster, namespace, t).Success? <==>
      cluster.get(t.reference.apiVersion, t.reference.kind, t.reference.name.value, namespace).Success?
  {
  }

  /** A label selector whose listing comes back empty in one page resolves to an empty collection. */
  lemma EmptyCollectionResolves(cluster: Cluster, namespace: string, t: Target)
    requires t.reference.name.None? && t.reference.labelSelector.Some?
    requires cluster.parseSelector(t.reference.labelSelector.value).None?
    requires cluster.list(t.reference.apiVersion, t.reference.kind, t.reference.labelSelector.value, namespace)
      == Success(Listing([], ""))
    ensures ResolveTarget(cluster, namespace, t) == Success(Collection([]))
  {
  }

  /**
   * Only the cluster reports NotFound: a reference with neither name nor
   * selector, a bad selector or a paged listing is some other error.
   */
  lemma ResolveTargetNotFound(cluster: Cluster, namespace: string, t: Target)
    requires ResolveTarget(cluster, namespace, t).Failure?
    ensures var err := ResolveTarget(cluster, namespace, t).error;
      var ref := t.reference;
      err.notFound ==>
        || (ref.name.Some? && cluster.get(ref.apiVersion, ref.kind, ref.name.value, namespace) == Failure(err))
        || (&& ref.name.None? && ref.labelSelector.Some?
            && cluster.list(ref.apiVersion, ref.kind, ref.labelSelector.value, namespace) == Failure(err))
  {
  }

  function ResolveErrorMessage(target: string, err: ApiError): string
  {
    "Error resolving target " + Quote(target) + ": " + err.message
  }

  function Snapshot(t: Target, r: Resolution): TargetStatus
  {
    TargetStatus(t.name, t.delete, t.includeWhenEvaluating, StateOf(r))
  }

  /** resolveTargets: one status per target, in spec order, or the first target that fails. */
  function ResolvedTargets(cluster: Cluster, namespace: string, targets: seq<Target>): (r: Result<seq<TargetStatus>, string>)
    ensures r.Success? ==> |r.value| == |targets|
  {
    if targets == [] then Success([])
    else
      match ResolveTarget(cluster, namespace, targets[0])
      case Failure(err) => Failure(ResolveErrorMessage(targets[0].name, err))
      case Success(res) =>
        match ResolvedTargets(cluster, namespace, targets[1..])
        case Failure(msg) => Failure(msg)
        case Success(rest) => Success([Snapshot(targets[0], res)] + rest)
  }

  /**
   * Resolution succeeds exactly when every target resolves, and then the
   * i-th status carries the i-th target's name, flags and state.
   */
  lemma {:induction false} ResolvedTargetsMeaning(cluster: Cluster, namespace: string, targets: seq<Target>)
    ensures ResolvedTargets(cluster, namespace, targets).Success? <==>
      forall i :: 0 <= i < |targets| ==> ResolveTarget(cluster, namespace, targets[i]).Success?
    ensures ResolvedTargets(cluster, namespace, targets).Success? ==>
      forall i :: 0 <= i < |targets| ==>
        ResolvedTargets(cluster, namespace, targets).value[i] ==
          Snapshot(targets[i], ResolveTarget(cluster, namespace, targets[i]).value)
  {
    if targets != [] {
      ResolvedTargetsMeaning(cluster, namespace, targets[1..]);
      assert forall i :: 1 <= i < |targets| ==> targets[1..][i - 1] == targets[i];
    }
  }

  /** The first target that fails to resolve is the one reported. */
  lemma {:induction false} ResolvedTargetsFirstError(cluster: Cluster, namespace: string, targets: seq<Target>, i: nat)
    requires i < |targets| && ResolveTarget(cluster, namespace, targets[i]).Failure?
    requires forall k :: 0 <= k < i ==> ResolveTarget(cluster, namespace, targets[k]).Success?
    ensures ResolvedTargets(cluster, namespace, targets) ==
      Failure(ResolveErrorMessage(targets[i].name, ResolveTarget(cluster, namespace, targets[i]).error))
  {
    if i > 0 {
      assert forall k :: 0 <= k < i - 1 ==> targets[1..][k] == targets[k + 1];
      ResolvedTargetsFirstError(cluster, namespace, targets[1..], i - 1);
    }
  }

  /** resolveTargets: fills a slice of statuses, one per target, stopping at the first failure. */
  method ResolveTargets(cluster: Cluster, namespace: string, targets: seq<Target>) returns (r: Result<seq<TargetStatus>, string>)
    ensures r == ResolvedTargets(cluster, namespace, targets)
  {
    var ts := new TargetStatus[|targets|](_ => TargetStatus("", false, false, Null));
    var i := 0;
    while i < |targets|
      invariant 0 <= i <= |targets|
      invariant forall k :: 0 <= k < i ==> ResolveTarget(cluster, namespace, targets[k]).Success?
      invariant forall k :: 0 <= k < i ==> ts[k] == Snapshot(targets[k], ResolveTarget(cluster, namespace, targets[k]).value)
    {
      var t := targets[i];
      var ui := ResolveTarget(cluster, namespace, t);
      if ui.Failure? {
        ResolvedTargetsFirstError(cluster, namespace, targets, i);
        return Failure(ResolveErrorMessage(t.name, ui.error));
      }
      ts[i] := Snapshot(t, ui.value);
      i := i + 1;
    }
    ResolvedTargetsMeaning(cluster, namespace, targets);
    assert ts[..] == ResolvedTargets(cluster, namespace, targets).value;
    return Success(ts[..]);
  }

  /** deleteTarget: a NotFound answer counts as deleted. */
  function DeleteRun(cluster: Cluster, obj: Value): Run
  {
    var err := cluster.delete(obj);
    Run([DeleteObject(obj)], if err.None? || err.value.notFound then None else Some(err.value.message))
  }

  /** EachListItem with deleteTarget: every item in list order, stopping at the first failure. */
  function DeleteAllRun(cluster: Cluster, items: seq<Value>): Run
  {
    if items == [] then Run([], None)
    else Then(DeleteRun(cluster, items[0]), DeleteAllRun(cluster, items[1..]))
  }

  /** The objects a resolution stands for. */
  function ObjectsOf(r: Resolution): seq<Value>
  {
    match r
    case Single(o) => [o]
    case Collection(items) => items
  }

  /**
   * The target finalizer's work on one target: nothing unless the target
   * is marked for deletion; a target that is not found is already gone.
   */
  function TargetRun(cluster: Cluster, namespace: string, t: Target): Run
  {
    if !t.delete then Run([], None)
    else
      match ResolveTarget(cluster, namespace, t)
      case Failure(err) => if err.notFound then Run([], None) else Run([], Some(err.message))
      case Success(res) => DeleteAllRun(cluster, ObjectsOf(res))
  }

  /** targetFinalizer: every target in spec order, stopping at the first failure. */
  function TargetFinalizerRun(cluster: Cluster, namespace: string, targets: seq<Target>): Run
  {
    if targets == [] then Run([], None)
    else Then(TargetRun(cluster, namespace, targets[0]), TargetFinalizerRun(cluster, namespace, targets[1..]))
  }

  /** Running e, then a, then b: what the loops below rely on. */
  lemma ThenStep(e: seq<Effect>, a: Run, b: Run)
    ensures Then(Run(e, None), Then(a, b)) ==
      if a.error.Some? then Run(e + a.effects, a.error) else Then(Run(e + a.effects, None), b)
  {
    assert e + a.effects + b.effects == e + (a.effects + b.effects);
  }

  lemma ThenDone(e: seq<Effect>)
    ensures Then(Run(e, None), Run([], None)) == Run(e, None)
  {
    assert e + [] == e;
  }

  /** Deletes every item of a listed collection, stopping at the first failure. */
  method DeleteEach(cluster: Cluster, items: seq<Value>) returns (run: Run)
    ensures run == DeleteAllRun(cluster, items)
  {
    var effects: seq<Effect> := [];
    var i := 0;
    while i < |items|
      invariant 0 <= i <= |items|
      invariant Then(Run(effects, None), DeleteAllRun(cluster, items[i..])) == DeleteAllRun(cluster, items)
    {
      assert items[i..][1..] == items[i + 1..];
      var one := DeleteRun(cluster, items[i]);
      ThenStep(effects, one, DeleteAllRun(cluster, items[i + 1..]));
      if one.error.Some? {
        return Run(effects + one.effects, one.error);
      }
      effects := effects + one.effects;
      i := i + 1;
    }
    assert items[i..] == [];
    ThenDone(effects);
    return Run(effects, None);
  }

  /** The body of targetFinalizer's loop for one target. */
  method FinalizeTarget(cluster: Cluster, namespace: string, t: Target) returns (one: Run)
    ensures one == TargetRun(cluster, namespace, t)
  {
    if !t.delete {
      return Run([], None);
    }
    var ui := ResolveTarget(cluster, namespace, t);
    if ui.Failure? {
      if ui.error.notFound {
        return Run([], None);
      }
      return Run([], Some(ui.error.message));
    }
    match ui.value {
      case Collection(items) =>
        one := DeleteEach(cluster, items);
      case Single(u) =>
        one := DeleteRun(cluster, u);
        assert [u][1..] == [];
        assert one.effects + [] == one.effects;
        assert DeleteAllRun(cluster, [u]) == Then(one, Run([], None));
    }
    assert ObjectsOf(ui.value) == if ui.value.Single? then [ui.value.obj] else ui.value.items;
  }

  /** targetFinalizer: resolves each target marked for deletion and deletes what it finds. */
  method TargetFinalizer(cluster: Cluster, namespace: string, targets: seq<Target>) returns (run: Run)
    ensures run == TargetFinalizerRun(cluster, namespace, targets)
  {
    var effects: seq<Effect> := [];
    var i := 0;
    while i < |targets|
      invariant 0 <= i <= |targets|
      invariant Then(Run(effects, None), TargetFinalizerRun(cluster, namespace, targets[i..]))
        == TargetFinalizerRun(cluster, namespace, targets)
    {
      assert targets[i..][0] == targets[i] && targets[i..][1..] == targets[i + 1..];
      var one := FinalizeTarget(cluster, namespace, targets[i]);
      ThenStep(effects, one, TargetFinalizerRun(cluster, namespace, targets[i + 1..]));
      if one.error.Some? {
        return Run(effects + one.effects, one.error);
      }
      effects := effects + one.effects;
      i := i + 1;
    }
    assert targets[i..] == [];
    ThenDone(effects);
    return Run(effects, None);
  }

  /** A delete that succeeded or found nothing to delete. */
  predicate DeleteOk(cluster: Cluster, obj: Value)
  {
    cluster.delete(obj).None? || cluster.delete(obj).value.notFound
  }

  lemma {:induction false} DeleteAllRunMeaning(cluster: Cluster, items: seq<Value>)
    ensures var run := DeleteAllRun(cluster, items);
      && (run.error.None? <==> forall k :: 0 <= k < |items| ==> DeleteOk(cluster, items[k]))
      && (forall e :: e in run.effects ==> e.DeleteObject? && e.obj in items)
      && (run.error.None? ==> forall k :: 0 <= k < |items| ==> DeleteObject(items[k]) in run.effects)
  {
    if items != [] {
      DeleteAllRunMeaning(cluster, items[1..]);
      assert forall k :: 1 <= k < |items| ==> items[k] == items[1..][k - 1];
    }
  }

  /** A target marked for deletion that is gone once the finalizer has run. */
  predicate TargetCleared(cluster: Cluster, namespace: string, t: Target)
  {
    match ResolveTarget(cluster, namespace, t)
    case Failure(err) => err.notFound
    case Success(res) => forall k :: 0 <= k < |ObjectsOf(res)| ==> DeleteOk(cluster, ObjectsOf(res)[k])
  }

  /** An object the target finalizer may delete: one resolved from a target marked for deletion. */
  predicate DeletableBy(cluster: Cluster, namespace: string, targets: seq<Target>, obj: Value)
  {
    exists i :: 0 <= i < |targets| && targets[i].delete
      && ResolveTarget(cluster, namespace, targets[i]).Success?
      && obj in ObjectsOf(ResolveTarget(cluster, namespace, targets[i]).value)
  }

  lemma TargetRunMeaning(cluster: Cluster, namespace: string, t: Target)
    ensures var run := TargetRun(cluster, namespace, t);
      && (run.error.None? <==> !t.delete || TargetCleared(cluster, namespace, t))
      && (forall e :: e in run.effects ==>
            && e.DeleteObject? && t.delete
            && ResolveTarget(cluster, namespace, t).Success?
            && e.obj in ObjectsOf(ResolveTarget(cluster, namespace, t).value))
      && (run.error.None? && t.delete && ResolveTarget(cluster, namespace, t).Success? ==>
            forall o :: o in ObjectsOf(ResolveTarget(cluster, namespace, t).value) ==> DeleteObject(o) in run.effects)
  {
    var r := ResolveTarget(cluster, namespace, t);
    if t.delete && r.Success? {
      DeleteAllRunMeaning(cluster, ObjectsOf(r.value));
    }
  }

  /**
   * The target finalizer succeeds exactly when every target marked for
   * deletion is cleared; it only ever deletes objects resolved from such
   * targets, and when it succeeds it has deleted all of them.
   */
  lemma {:induction false} TargetFinalizerMeaning(cluster: Cluster, namespace: string, targets: seq<Target>)
    ensures var run := TargetFinalizerRun(cluster, namespace, targets);
      && (run.error.None? <==>
            forall i :: 0 <= i < |targets| && targets[i].delete ==> TargetCleared(cluster, namespace, targets[i]))
      && (forall e :: e in run.effects ==> e.DeleteObject? && DeletableBy(cluster, namespace, targets, e.obj))
      && (run.error.None? ==> forall o :: DeletableBy(cluster, namespace, targets, o) ==> DeleteObject(o) in run.effects)
  {
    if targets != [] {
      var t := targets[0];
      var rest := targets[1..];
      TargetRunMeaning(cluster, namespace, t);
      TargetFinalizerMeaning(cluster, namespace, rest);
      assert forall i :: 1 <= i < |targets| ==> targets[i] == rest[i - 1];
      var run := TargetFinalizerRun(cluster, namespace, targets);
      forall e | e in run.effects
        ensures e.DeleteObject? && DeletableBy(cluster, namespace, targets, e.obj)
      {
        if e in TargetRun(cluster, namespace, t).effects {
          assert targets[0] == t;
        } else {
          var i :| 0 <= i < |rest| && rest[i].delete
            && ResolveTarget(cluster, namespace, rest[i]).Success?
            && e.obj in ObjectsOf(ResolveTarget(cluster, namespace, rest[i]).value);
          assert targets[i + 1] == rest[i];
        }
      }
      if run.error.None? {
        forall o | DeletableBy(cluster, namespace, targets, o)
          ensures DeleteObject(o) in run.effects
        {
          var i :| 0 <= i < |targets| && targets[i].delete
            && ResolveTarget(cluster, namespace, targets[i]).Success?
            && o in ObjectsOf(ResolveTarget(cluster, namespace, targets[i]).value);
          if i > 0 {
            assert DeletableBy(cluster, namespace, rest, o);
          }
        }
      }
    }
  }

  /**
   * helmReleaseFinalizer: uninstalls the configured release when the spec
   * asks for it; a release that is not found is already gone.
   */
  function HelmReleaseFinalizerRun(helm: (string, string) -> UninstallOutcome, namespace: string,
                                   config: Option<HelmConfig>): (r: Run)
    ensures r.effects == if config.Some? && config.value.delete then [UninstallRelease(config.value.release)] else []
    ensures r.error.None? <==>
      config.None? || !config.value.delete || !helm(namespace, config.value.release).HelmFailed?
  {
    if config.None? || !config.value.delete then Run([], None)
    else
      match helm(namespace, config.value.release)
      case HelmFailed(msg) => Run([UninstallRelease(config.value.release)], Some(msg))
      case _ => Run([UninstallRelease(config.value.release)], None)
  }

  /** What dereferencing an unset status.evaluationTime comes to. */
  const NilDereference := "runtime error: invalid memory address or nil pointer dereference"

  /** The deletion event: the evaluation time and the targets as frozen in the status. */
  function DeletionEvent(name: string, namespace: string, status: ConditionalTTLStatus): CloudEvent
    requires status.evaluationTime.Some?
  {
    CloudEvent(EventSource, EventType, status.evaluationTime.value, name, namespace, status.targets)
  }

  /**
   * cloudEventFinalizer: sends the deletion event to the configured sink;
   * delivery that is not acknowledged is an error.
   */
  function CloudEventFinalizerRun(send: (string, CloudEvent) -> Option<string>, name: string, namespace: string,
                                  sink: Option<string>, status: ConditionalTTLStatus): (r: Run)
    ensures sink.None? ==> r == Run([], None)
    ensures sink.Some? && status.evaluationTime.Some? ==>
      && r.effects == [SendEvent(sink.value, DeletionEvent(name, namespace, status))]
      && (r.error.None? <==> send(sink.value, DeletionEvent(name, namespace, status)).None?)
  {
    if sink.None? then Run([], None)
    else if status.evaluationTime.None? then Run([], Some(NilDereference))
    else
      var event := DeletionEvent(name, namespace, status);
      Run([SendEvent(sink.value, event)], send(sink.value, event))
  }

  /** The finalizers the controller handles, in the order it handles them. */
  const TargetFinalizerName := "cleaner.vtex.io/target-finalizer"
  const ReleaseFinalizerName := "cleaner.vtex.io/release-finalizer"
  const CloudEventFinalizerName := "cleaner.vtex.io/cloud-event-finalizer"
  const FinalizerNames: seq<string> := [TargetFinalizerName, ReleaseFinalizerName, CloudEventFinalizerName]

  /** The first of FinalizerNames[from..] present in fs. */
  function FirstPresentFrom(fs: seq<string>, from: nat): (r: Option<nat>)
    ensures r.Some? ==>
      && from <= r.value < |FinalizerNames| && FinalizerNames[r.value] in fs
      && forall j :: from <= j < r.value ==> FinalizerNames[j] !in fs
    ensures r.None? ==> forall j :: from <= j < |FinalizerNames| ==> FinalizerNames[j] !in fs
    decreases |FinalizerNames| - from
  {
    if from >= |FinalizerNames| then None
    else if FinalizerNames[from] in fs then Some(from)
    else FirstPresentFrom(fs, from + 1)
  }

  /** The index of the first of the controller's finalizers still present, if any. */
  function FirstPresent(fs: seq<string>): Option<nat>
  {
    FirstPresentFrom(fs, 0)
  }

  /** controllerutil.RemoveFinalizer: every occurrence of `name` goes, the rest keep their order. */
  function Without(fs: seq<string>, name: string): (r: seq<string>)
    ensures forall x :: x in r <==> x in fs && x != name
    ensures |r| <= |fs|
    ensures name !in fs ==> r == fs
  {
    if fs == [] then []
    else if fs[0] == name then Without(fs[1..], name)
    else [fs[0]] + Without(fs[1..], name)
  }

  /** controllerutil.AddFinalizer: appends `name` unless it is already there. */
  function AddFinalizer(fs: seq<string>, name: string): seq<string>
  {
    if name in fs then fs else fs + [name]
  }

  /** The names not in fs, in their order in `names`. */
  function MissingFrom(fs: seq<string>, names: seq<string>): (r: seq<string>)
    ensures forall x :: x in r <==> x in names && x !in fs
  {
    if names == [] then []
    else MissingFrom(fs, names[..|names| - 1]) + (if names[|names| - 1] in fs then [] else [names[|names| - 1]])
  }

  predicate Distinct(names: seq<string>)
  {
    forall i, j :: 0 <= i < j < |names| ==> names[i] != names[j]
  }

  /** Adds each of `names` in turn. */
  function AddFinalizers(fs: seq<string>, names: seq<string>): (r: seq<string>)
    ensures |r| >= |fs| && r[..|fs|] == fs
    ensures forall x :: x in r <==> x in fs || x in names
    ensures r == fs <==> forall n :: n in names ==> n in fs
  {
    if names == [] then fs
    else
      var before := AddFinalizers(fs, names[..|names| - 1]);
      assert names == names[..|names| - 1] + [names[|names| - 1]];
      AddFinalizer(before, names[|names| - 1])
  }

  /**
   * The controller's calls on its own ConditionalTTL: each one either fails
   * with the given message or succeeds. A NotFound Get means the object is
   * gone.
   */
  datatype Store = Store(
    getError: Option<ApiError>,
    statusUpdateError: Option<string>,
    updateError: Option<string>,
    deleteError: Option<string>)

  /** Everything a reconcile pass consults besides the object itself. */
  datatype World = World(
    store: Store,
    cluster: Cluster,
    helm: (string, string) -> UninstallOutcome,
    send: (string, CloudEvent) -> Option<string>,
    engine: CelEngine)

  /** A ConditionalTTL as stored: metadata, spec and status. */
  datatype ObjectState = ObjectState(
    name: string,
    namespace: string,
    generation: int,
    creationTimestamp: int,
    spec: ConditionalTTLSpec,
    finalizers: seq<string>,
    deletionTimestamp: Option<int>,
    status: ConditionalTTLStatus,
    removed: bool)

  /** ctrl.Result and the returned error; 0 means no timed requeue. */
  datatype Reply = Reply(requeueAfter: int, error: Option<string>, effects: seq<Effect>)

  datatype Step = Step(state: ObjectState, reply: Reply)

  const NotExpiredMessage := "Waiting for resource to expire"

  function ResolveConditionMessage(err: string): string
  {
    "Error resolving targets: " + err
  }

  /** The handler of FinalizerNames[k]. */
  function HandlerRun(k: nat, w: World, s: ObjectState): Run
    requires k < |FinalizerNames|
  {
    if k == 0 then TargetFinalizerRun(w.cluster, s.namespace, s.spec.targets)
    else if k == 1 then HelmReleaseFinalizerRun(w.helm, s.namespace, s.spec.helm)
    else CloudEventFinalizerRun(w.send, s.name, s.namespace, s.spec.cloudEventSink, s.status)
  }

  /**
   * The deletion branch: the first of the controller's finalizers still
   * present is handled and removed, and the pass ends there. Removing the
   * last finalizer of an object being deleted removes the object.
   */
  function FinalizeStep(w: World, s: ObjectState): Step
  {
    match FirstPresent(s.finalizers)
    case None => Step(s, Reply(0, None, []))
    case Some(k) =>
      var run := HandlerRun(k, w, s);
      if run.error.Some? then Step(s, Reply(0, run.error, run.effects))
      else if w.store.updateError.Some? then Step(s, Reply(0, w.store.updateError, run.effects))
      else
        var fs := Without(s.finalizers, FinalizerNames[k]);
        Step(s.(finalizers := fs, removed := fs == []), Reply(0, None, run.effects))
  }

  /** A status write: on failure the stored object is unchanged and the error is returned. */
  function StatusWrite(w: World, s: ObjectState, status: ConditionalTTLStatus, reply: Reply): Step
  {
    if w.store.statusUpdateError.Some? then Step(s, Reply(0, w.store.statusUpdateError, []))
    else Step(s.(status := status), reply)
  }

  function ExpiresAt(s: ObjectState): int
  {
    s.creationTimestamp + s.spec.ttl
  }

  /** The conditions verdict for the resolved targets at `now`. */
  function VerdictFor(w: World, now: int, s: ObjectState, ts: seq<TargetStatus>): Verdict
  {
    Evaluation(w.engine, BaseOptions + IncludedVariables(s.spec.targets), CelContext(ts, now), s.spec.conditions)
  }

  function ReadyCondition(v: Verdict, generation: int): Condition
  {
    Condition(v.status, v.reason, v.message, generation)
  }

  /**
   * Conditions met: the targets and the evaluation time are frozen in the
   * status, the controller's finalizers are added, and the object is
   * deleted.
   */
  function ConditionsMetStep(w: World, now: int, s: ObjectState, ts: seq<TargetStatus>, cond: Condition): Step
  {
    var frozen := s.status.(targets := ts, evaluationTime := Some(now), ready := Some(cond));
    if w.store.statusUpdateError.Some? then Step(s, Reply(0, w.store.statusUpdateError, []))
    else
      var s1 := s.(status := frozen);
      var fs := AddFinalizers(s.finalizers, FinalizerNames);
      if fs != s.finalizers && w.store.updateError.Some? then Step(s1, Reply(0, w.store.updateError, []))
      else
        var s2 := s1.(finalizers := fs);
        if w.store.deleteError.Some? then Step(s2, Reply(0, w.store.deleteError, []))
        else Step(s2.(deletionTimestamp := Some(now)), Reply(0, None, []))
  }

  /** After the TTL: resolve the targets, evaluate the conditions, and act on the verdict. */
  function ExpiredStep(w: World, now: int, s: ObjectState): Step
  {
    match ResolvedTargets(w.cluster, s.namespace, s.spec.targets)
    case Failure(msg) =>
      var cond := Condition(False, TargetResolveError, ResolveConditionMessage(msg), s.generation);
      StatusWrite(w, s, s.status.(ready := Some(cond)), Reply(0, Some(msg), []))
    case Success(ts) =>
      var v := VerdictFor(w, now, s, ts);
      var cond := ReadyCondition(v, s.generation);
      if !v.conditionsMet then
        var requeue := if v.retryable && s.spec.retry.Some? then s.spec.retry.value.period else 0;
        StatusWrite(w, s, s.status.(ready := Some(cond)), Reply(requeue, None, []))
      else ConditionsMetStep(w, now, s, ts, cond)
  }

  /** One reconcile pass over the stored object at time `now`. */
  function ReconcileStep(w: World, now: int, s: ObjectState): (r: Step)
    ensures s.removed ==> r == Step(s, Reply(0, None, []))
    ensures !s.removed && w.store.getError.Some? ==>
      r.state == s && r.reply.effects == [] && (r.reply.error.None? <==> w.store.getError.value.notFound)
    ensures && r.state.name == s.name && r.state.namespace == s.namespace
            && r.state.generation == s.generation && r.state.creationTimestamp == s.creationTimestamp
            && r.state.spec == s.spec
    ensures s.deletionTimestamp.Some? ==> r.state.deletionTimestamp == s.deletionTimestamp
  {
    if s.removed then Step(s, Reply(0, None, []))
    else if w.store.getError.Some? then
      Step(s, Reply(0, if w.store.getError.value.notFound then None else Some(w.store.getError.value.message), []))
    else if s.deletionTimestamp.Some? then FinalizeStep(w, s)
    else if now <= ExpiresAt(s) then
      var cond := Condition(Unknown, NotExpired, NotExpiredMessage, s.generation);
      StatusWrite(w, s, s.status.(ready := Some(cond)), Reply(ExpiresAt(s) - now, None, []))
    else ExpiredStep(w, now, s)
  }

  /** A stored ConditionalTTL, updated in place by the reconciler. */
  class ConditionalTTL {
    const name: string
    const namespace: string
    const generation: int
    const creationTimestamp: int
    const spec: ConditionalTTLSpec
    var finalizers: seq<string>
    var deletionTimestamp: Option<int>
    var status: ConditionalTTLStatus
    var removed: bool

    /** A newly created object: no finalizers, no status. */
    constructor (name: string, namespace: string, generation: int, creationTimestamp: int, spec: ConditionalTTLSpec)
      ensures State() == ObjectState(name, namespace, generation, creationTimestamp, spec,
                                     [], None, ConditionalTTLStatus([], None, None), false)
    {
      this.name := name;
      this.namespace := namespace;
      this.generation := generation;
      this.creationTimestamp := creationTimestamp;
      this.spec := spec;
      finalizers := [];
      deletionTimestamp := None;
      status := ConditionalTTLStatus([], None, None);
      removed := false;
    }

    function State(): ObjectState
      reads this
    {
      ObjectState(name, namespace, generation, creationTimestamp, spec, finalizers, deletionTimestamp, status, removed)
    }
  }

  /** Runs the handler of FinalizerNames[k]. */
  method HandleFinalizer(k: nat, w: World, s: ObjectState) returns (run: Run)
    requires k < |FinalizerNames|
    ensures run == HandlerRun(k, w, s)
  {
    if k == 0 {
      run := TargetFinalizer(w.cluster, s.namespace, s.spec.targets);
    } else if k == 1 {
      run := HelmReleaseFinalizerRun(w.helm, s.namespace, s.spec.helm);
    } else {
      run := CloudEventFinalizerRun(w.send, s.name, s.namespace, s.spec.cloudEventSink, s.status);
    }
  }

  /** The deletion branch of Reconcile: the loop over the finalizer table. */
  method RunFinalizers(obj: ConditionalTTL, w: World) returns (reply: Reply)
    modifies obj
    ensures obj.State() == FinalizeStep(w, old(obj.State())).state
    ensures reply == FinalizeStep(w, old(obj.State())).reply
  {
    for k := 0 to |FinalizerNames|
      invariant forall j :: 0 <= j < k ==> FinalizerNames[j] !in obj.finalizers
      invariant obj.State() == old(obj.State())
    {
      var name := FinalizerNames[k];
      if name !in obj.finalizers {
        continue;
      }
      assert FirstPresent(obj.finalizers) == Some(k);
      var run := HandleFinalizer(k, w, obj.State());
      if run.error.Some? {
        return Reply(0, run.error, run.effects);
      }
      if w.store.updateError.Some? {
        return Reply(0, w.store.updateError, run.effects);
      }
      obj.finalizers := Without(obj.finalizers, name);
      obj.removed := obj.finalizers == [];
      return Reply(0, None, run.effects);
    }
    assert FirstPresent(obj.finalizers).None?;
    return Reply(0, None, []);
  }

  /** The loop that adds whichever of the controller's finalizers are missing. */
  method EnsureFinalizers(fs: seq<string>) returns (r: seq<string>, needsUpdate: bool)
    ensures r == AddFinalizers(fs, FinalizerNames)
    ensures needsUpdate <==> r != fs
  {
    r := fs;
    needsUpdate := false;
    for k := 0 to |FinalizerNames|
      invariant r == AddFinalizers(fs, FinalizerNames[..k])
      invariant |r| >= |fs| && r[..|fs|] == fs
      invariant needsUpdate <==> |r| > |fs|
    {
      assert FinalizerNames[..k + 1][..k] == FinalizerNames[..k];
      if FinalizerNames[k] in r {
        continue;
      }
      needsUpdate := true;
      r := r + [FinalizerNames[k]];
    }
    assert FinalizerNames[..|FinalizerNames|] == FinalizerNames;
    if !needsUpdate {
      assert r == r[..|fs|];
    }
  }

  /** Reconcile: one pass over a stored ConditionalTTL at time `now`. */
  method Reconcile(obj: ConditionalTTL, w: World, now: int) returns (reply: Reply)
    modifies obj
    ensures obj.State() == ReconcileStep(w, now, old(obj.State())).state
    ensures reply == ReconcileStep(w, now, old(obj.State())).reply
  {
    if obj.removed {
      return Reply(0, None, []);
    }
    if w.store.getError.Some? {
      return Reply(0, if w.store.getError.value.notFound then None else Some(w.store.getError.value.message), []);
    }
    if obj.deletionTimestamp.Some? {
      reply := RunFinalizers(obj, w);
      return;
    }
    var expiresAt := obj.creationTimestamp + obj.spec.ttl;
    if now <= expiresAt {
      if w.store.statusUpdateError.Some? {
        return Reply(0, w.store.statusUpdateError, []);
      }
      obj.status := obj.status.(ready := Some(Condition(Unknown, NotExpired, NotExpiredMessage, obj.generation)));
      return Reply(expiresAt - now, None, []);
    }
    reply := ReconcileExpired(obj, w, now);
  }

  /** Reconcile once the TTL has passed. */
  method ReconcileExpired(obj: ConditionalTTL, w: World, now: int) returns (reply: Reply)
    modifies obj
    ensures obj.State() == ExpiredStep(w, now, old(obj.State())).state
    ensures reply == ExpiredStep(w, now, old(obj.State())).reply
  {
    var ts := ResolveTargets(w.cluster, obj.namespace, obj.spec.targets);
    if ts.Failure? {
      if w.store.statusUpdateError.Some? {
        return Reply(0, w.store.statusUpdateError, []);
      }
      var cond := Condition(False, TargetResolveError, ResolveConditionMessage(ts.error), obj.generation);
      obj.status := obj.status.(ready := Some(cond));
      return Reply(0, Some(ts.error), []);
    }
    var ctx := BuildCELContext(ts.value, now);
    var opts := BuildCELOptions(obj.spec);
    var v := EvaluateCELConditions(w.engine, opts, ctx, obj.spec.conditions);
    var cond := ReadyCondition(v, obj.generation);
    if w.store.statusUpdateError.Some? {
      return Reply(0, w.store.statusUpdateError, []);
    }
    if !v.conditionsMet {
      obj.status := obj.status.(ready := Some(cond));
      if v.retryable && obj.spec.retry.Some? {
        return Reply(obj.spec.retry.value.period, None, []);
      }
      return Reply(0, None, []);
    }
    obj.status := obj.status.(targets := ts.value, evaluationTime := Some(now), ready := Some(cond));
    var fs, needsUpdate := EnsureFinalizers(obj.finalizers);
    if needsUpdate {
      if w.store.updateError.Some? {
        return Reply(0, w.store.updateError, []);
      }
      obj.finalizers := fs;
    }
    if w.store.deleteError.Some? {
      return Reply(0, w.store.deleteError, []);
    }
    obj.deletionTimestamp := Some(now);
    return Reply(0, None, []);
  }

  /**
   * The controller's finalizers are only ever present on an object whose
   * evaluation time has been recorded, so the cloud-event finalizer always
   * finds one.
   */
  predicate MarkersImplyFrozen(s: ObjectState)
  {
    FirstPresent(s.finalizers).Some? ==> s.status.evaluationTime.Some?
  }

  /** A newly created object carries none of the controller's finalizers. */
  lemma NewObjectFrozen(name: string, namespace: string, generation: int, creationTimestamp: int, spec: ConditionalTTLSpec)
    ensures MarkersImplyFrozen(ObjectState(name, namespace, generation, creationTimestamp, spec,
                                           [], None, ConditionalTTLStatus([], None, None), false))
  {
  }

  lemma FirstPresentWithout(fs: seq<string>, name: string)
    ensures FirstPresent(Without(fs, name)).Some? ==> FirstPresent(fs).Some?
  {
    var r := FirstPresent(Without(fs, name));
    if r.Some? {
      assert FinalizerNames[r.value] in fs;
    }
  }

  /** Every reconcile pass preserves MarkersImplyFrozen. */
  lemma ReconcileKeepsFrozen(w: World, now: int, s: ObjectState)
    requires MarkersImplyFrozen(s)
    ensures MarkersImplyFrozen(ReconcileStep(w, now, s).state)
  {
    if !s.removed && w.store.getError.None? && s.deletionTimestamp.Some? {
      match FirstPresent(s.finalizers)
      case None =>
      case Some(k) => FirstPresentWithout(s.finalizers, FinalizerNames[k]);
    }
  }

  /**
   * On an object that keeps the invariant, the cloud-event finalizer sends
   * exactly one event, carrying the evaluation time and the target states
   * recorded in the status.
   */
  lemma CloudEventCarriesSnapshot(w: World, s: ObjectState)
    requires MarkersImplyFrozen(s) && FirstPresent(s.finalizers) == Some(2)
    ensures s.status.evaluationTime.Some?
    ensures var run := HandlerRun(2, w, s);
      if s.spec.cloudEventSink.None? then run == Run([], None)
      else
        var event := CloudEvent(EventSource, EventType, s.status.evaluationTime.value, s.name, s.namespace, s.status.targets);
        run == Run([SendEvent(s.spec.cloudEventSink.value, event)], w.send(s.spec.cloudEventSink.value, event))
  {
  }

  /** A pass over an object that is neither gone nor unreadable. */
  predicate Readable(w: World, s: ObjectState)
  {
    !s.removed && w.store.getError.None?
  }

  /**
   * While the object is being deleted a pass handles one finalizer, the
   * first of the table still present: on success it is removed and the
   * next pass starts from a later one, so each finalizer runs to success
   * at most once. The spec and the status are never touched.
   */
  lemma DeletionHandlesFirstFinalizer(w: World, now: int, s: ObjectState)
    requires Readable(w, s) && s.deletionTimestamp.Some?
    ensures var step := ReconcileStep(w, now, s);
      && step.state.status == s.status
      && step.state.deletionTimestamp == s.deletionTimestamp
      && step.reply.requeueAfter == 0
      && (FirstPresent(s.finalizers).None? ==> step == Step(s, Reply(0, None, [])))
      && (FirstPresent(s.finalizers).Some? ==>
            var k := FirstPresent(s.finalizers).value;
            && step.reply.effects == HandlerRun(k, w, s).effects
            && (step.reply.error.None? <==> HandlerRun(k, w, s).error.None? && w.store.updateError.None?)
            && (step.reply.error.Some? ==> step.state == s)
            && (step.reply.error.None? ==>
                  && FinalizerNames[k] !in step.state.finalizers
                  && (forall x :: x != FinalizerNames[k] ==> (x in step.state.finalizers <==> x in s.finalizers))
                  && (step.state.removed <==> step.state.finalizers == [])
                  && (FirstPresent(step.state.finalizers).None? || FirstPresent(step.state.finalizers).value > k)))
  {
    match FirstPresent(s.finalizers)
    case None =>
    case Some(k) =>
      var fs := Without(s.finalizers, FinalizerNames[k]);
      var r := FirstPresent(fs);
      if r.Some? {
        assert FinalizerNames[r.value] in s.finalizers;
      }
  }

  /**
   * Before the TTL has passed nothing is deleted and no finalizer is
   * added: the Ready condition says the object is waiting to expire and
   * the next pass is due at the expiry time.
   */
  lemma NothingBeforeExpiry(w: World, now: int, s: ObjectState)
    requires Readable(w, s) && s.deletionTimestamp.None? && now <= ExpiresAt(s)
    ensures var step := ReconcileStep(w, now, s);
      && step.reply.effects == []
      && step.state.finalizers == s.finalizers
      && step.state.deletionTimestamp.None?
      && step.state.status.evaluationTime == s.status.evaluationTime
      && (step.reply.error.None? <==> w.store.statusUpdateError.None?)
      && (step.reply.error.None? ==>
            && step.reply.requeueAfter == ExpiresAt(s) - now >= 0
            && step.state.status.ready == Some(Condition(Unknown, NotExpired, NotExpiredMessage, s.generation)))
  {
  }

  /**
   * A target that cannot be resolved stops the pass: the Ready condition
   * becomes False with reason TargetResolveError and the error is returned,
   * and nothing is deleted.
   */
  lemma ResolveFailureReported(w: World, now: int, s: ObjectState)
    requires Readable(w, s) && s.deletionTimestamp.None? && now > ExpiresAt(s)
    requires ResolvedTargets(w.cluster, s.namespace, s.spec.targets).Failure?
    ensures var msg := ResolvedTargets(w.cluster, s.namespace, s.spec.targets).error;
      var step := ReconcileStep(w, now, s);
      && step.reply.effects == [] && step.reply.requeueAfter == 0
      && step.state.finalizers == s.finalizers && step.state.deletionTimestamp.None?
      && step.state.status.evaluationTime == s.status.evaluationTime
      && step.reply.error.Some?
      && (w.store.statusUpdateError.None? ==>
            && step.reply.error == Some(msg)
            && step.state.status.ready == Some(Condition(False, TargetResolveError, ResolveConditionMessage(msg), s.generation)))
  {
  }

  /**
   * Conditions not met: the verdict is recorded, nothing is deleted, and
   * the pass is retried after the retry period exactly when the failure is
   * retryable and a period is configured.
   */
  lemma UnmetConditionsWait(w: World, now: int, s: ObjectState)
    requires Readable(w, s) && s.deletionTimestamp.None? && now > ExpiresAt(s)
    requires ResolvedTargets(w.cluster, s.namespace, s.spec.targets).Success?
    requires !VerdictFor(w, now, s, ResolvedTargets(w.cluster, s.namespace, s.spec.targets).value).conditionsMet
    ensures var v := VerdictFor(w, now, s, ResolvedTargets(w.cluster, s.namespace, s.spec.targets).value);
      var step := ReconcileStep(w, now, s);
      && step.reply.effects == []
      && step.state.finalizers == s.finalizers && step.state.deletionTimestamp.None?
      && step.state.status.evaluationTime == s.status.evaluationTime
      && (w.store.statusUpdateError.None? ==>
            && step.reply.error.None?
            && step.state.status.ready == Some(ReadyCondition(v, s.generation))
            && (step.reply.requeueAfter != 0 ==> v.retryable && s.spec.retry.Some?)
            && (v.retryable && s.spec.retry.Some? ==> step.reply.requeueAfter == s.spec.retry.value.period))
  {
  }

  /**
   * Conditions met: when every write succeeds, the targets as resolved and
   * the evaluation time are frozen in the status, the missing finalizers
   * are appended in table order so that each is present once, and the
   * object is marked for deletion.
   */
  lemma MetConditionsDelete(w: World, now: int, s: ObjectState)
    requires Readable(w, s) && s.deletionTimestamp.None? && now > ExpiresAt(s)
    requires ResolvedTargets(w.cluster, s.namespace, s.spec.targets).Success?
    requires VerdictFor(w, now, s, ResolvedTargets(w.cluster, s.namespace, s.spec.targets).value).conditionsMet
    requires w.store.statusUpdateError.None? && w.store.updateError.None? && w.store.deleteError.None?
    ensures var ts := ResolvedTargets(w.cluster, s.namespace, s.spec.targets).value;
      var step := ReconcileStep(w, now, s);
      && step.reply == Reply(0, None, [])
      && step.state.status.targets == ts
      && step.state.status.evaluationTime == Some(now)
      && step.state.status.ready == Some(ReadyCondition(VerdictFor(w, now, s, ts), s.generation))
      && (forall n :: n in FinalizerNames ==> n in step.state.finalizers)
      && step.state.finalizers == s.finalizers + MissingFrom(s.finalizers, FinalizerNames)
      && (forall n :: n in FinalizerNames && multiset(s.finalizers)[n] <= 1 ==>
            multiset(step.state.finalizers)[n] == 1)
      && step.state.deletionTimestamp == Some(now)
      && !step.state.removed
  {
    FinalizersPresentOnce(s.finalizers);
  }

  /**
   * Targets are deleted, releases uninstalled and events sent only while
   * the object is being deleted, and only by the finalizer that is first
   * in the table among those present: targets only under the target
   * finalizer.
   */
  lemma EffectsOnlyFromFinalizers(w: World, now: int, s: ObjectState)
    ensures var step := ReconcileStep(w, now, s);
      step.reply.effects != [] ==>
        && Readable(w, s) && s.deletionTimestamp.Some?
        && FirstPresent(s.finalizers).Some?
        && step.reply.effects == HandlerRun(FirstPresent(s.finalizers).value, w, s).effects
        && (forall e :: e in step.reply.effects && e.DeleteObject? ==>
              && FirstPresent(s.finalizers) == Some(0)
              && DeletableBy(w.cluster, s.namespace, s.spec.targets, e.obj))
  {
    var step := ReconcileStep(w, now, s);
    if step.reply.effects != [] && FirstPresent(s.finalizers) == Some(0) {
      TargetFinalizerMeaning(w.cluster, s.namespace, s.spec.targets);
    }
  }

  /**
   * The controller adds its finalizers only in a pass that found the TTL
   * passed and the conditions met, and that pass has recorded the resolved
   * targets and the evaluation time. So an object deleted by hand before
   * then is deleted without touching its targets.
   */
  lemma FinalizersOnlyAfterConditionsMet(w: World, now: int, s: ObjectState, n: string)
    requires n in FinalizerNames && n !in s.finalizers
    requires n in ReconcileStep(w, now, s).state.finalizers
    ensures Readable(w, s) && s.deletionTimestamp.None? && now > ExpiresAt(s)
    ensures ResolvedTargets(w.cluster, s.namespace, s.spec.targets).Success?
    ensures var ts := ResolvedTargets(w.cluster, s.namespace, s.spec.targets).value;
      && VerdictFor(w, now, s, ts).conditionsMet
      && ReconcileStep(w, now, s).state.status.targets == ts
      && ReconcileStep(w, now, s).state.status.evaluationTime == Some(now)
  {
    if Readable(w, s) && s.deletionTimestamp.Some? {
      match FirstPresent(s.finalizers)
      case None =>
      case Some(k) =>
    }
  }

  /** An object being deleted that never got the controller's finalizers is left alone. */
  lemma ManualDeletionLeavesTargets(w: World, now: int, s: ObjectState)
    requires s.deletionTimestamp.Some?
    requires forall n :: n in FinalizerNames ==> n !in s.finalizers
    ensures ReconcileStep(w, now, s).state == s
    ensures ReconcileStep(w, now, s).reply.effects == []
  {
  }

  /**
   * The object is marked for deletion only after its TTL, and only when
   * every condition compiles and evaluates to true against the targets as
   * resolved in that pass, with `time` bound to that instant.
   */
  lemma DeletionOnlyWhenAllConditionsHold(w: World, now: int, s: ObjectState)
    requires s.deletionTimestamp.None? && ReconcileStep(w, now, s).state.deletionTimestamp.Some?
    ensures Readable(w, s) && now > ExpiresAt(s)
    ensures ResolvedTargets(w.cluster, s.namespace, s.spec.targets).Success?
    ensures var opts := BaseOptions + IncludedVariables(s.spec.targets);
      var ctx := CelContext(ResolvedTargets(w.cluster, s.namespace, s.spec.targets).value, now);
      && w.engine.newEnv(opts).None?
      && forall i :: 0 <= i < |s.spec.conditions| ==> Holds(w.engine, opts, ctx, s.spec.conditions[i])
  {
    var ts := ResolvedTargets(w.cluster, s.namespace, s.spec.targets);
    if ts.Success? {
      EvaluationMet(w.engine, BaseOptions + IncludedVariables(s.spec.targets), CelContext(ts.value, now), s.spec.conditions);
    }
  }

  lemma DistinctAppend(a: seq<string>, x: string)
    requires Distinct(a) && x !in a
    ensures Distinct(a + [x])
  {
    forall i, j | 0 <= i < j < |a + [x]|
      ensures (a + [x])[i] != (a + [x])[j]
    {
      if j == |a| {
        assert (a + [x])[i] == a[i];
      } else {
        assert (a + [x])[i] == a[i] && (a + [x])[j] == a[j];
      }
    }
  }

  lemma DistinctInit(names: seq<string>)
    requires Distinct(names) && names != []
    ensures Distinct(names[..|names| - 1]) && names[|names| - 1] !in names[..|names| - 1]
  {
  }

  /** Filtering distinct names leaves them distinct. */
  lemma {:induction false} MissingFromDistinct(fs: seq<string>, names: seq<string>)
    requires Distinct(names)
    ensures Distinct(MissingFrom(fs, names))
  {
    if names != [] {
      var init := names[..|names| - 1];
      var x := names[|names| - 1];
      DistinctInit(names);
      MissingFromDistinct(fs, init);
      if x !in fs {
        DistinctAppend(MissingFrom(fs, init), x);
      } else {
        assert MissingFrom(fs, init) + [] == MissingFrom(fs, init);
      }
    }
  }

  /** For distinct names, adding them appends exactly the missing ones, each once, in table order. */
  lemma {:induction false} AddFinalizersAppendsMissing(fs: seq<string>, names: seq<string>)
    requires Distinct(names)
    ensures AddFinalizers(fs, names) == fs + MissingFrom(fs, names)
  {
    if names != [] {
      var init := names[..|names| - 1];
      var x := names[|names| - 1];
      DistinctInit(names);
      AddFinalizersAppendsMissing(fs, init);
      var before := AddFinalizers(fs, init);
      var m := MissingFrom(fs, init);
      assert before == fs + m;
      assert x in before <==> x in fs;
      assert AddFinalizers(fs, names) == AddFinalizer(before, x);
      assert MissingFrom(fs, names) == m + (if x in fs then [] else [x]);
      if x in fs {
        assert m + [] == m;
      } else {
        assert fs + m + [x] == fs + (m + [x]);
      }
    }
  }

  /**
   * After the conditions-met pass each of the controller's finalizers is
   * present exactly once, unless it was already duplicated.
   */
  lemma FinalizersPresentOnce(fs: seq<string>)
    ensures AddFinalizers(fs, FinalizerNames) == fs + MissingFrom(fs, FinalizerNames)
    ensures forall n :: n in FinalizerNames && multiset(fs)[n] <= 1 ==>
      multiset(AddFinalizers(fs, FinalizerNames))[n] == 1
  {
    assert Distinct(FinalizerNames);
    AddFinalizersAppendsMissing(fs, FinalizerNames);
    var m := MissingFrom(fs, FinalizerNames);
    MissingFromDistinct(fs, FinalizerNames);
    forall n | n in FinalizerNames && multiset(fs)[n] <= 1
      ensures multiset(fs + m)[n] == 1
    {
      assert multiset(fs + m) == multiset(fs) + multiset(m);
      if n in fs {
        assert n !in m;
      } else {
        assert n in m;
        DistinctCount(m, n);
      }
    }
  }

  lemma {:induction false} DistinctCount(s: seq<string>, n: string)
    requires Distinct(s) && n in s
    ensures multiset(s)[n] == 1
  {
    if s[0] == n {
      assert n !in s[1..];
    } else {
      assert Distinct(s[1..]);
      DistinctCount(s[1..], n);
    }
    assert s == [s[0]] + s[1..];
  }
}
