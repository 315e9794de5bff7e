/**
 * The ConditionalTTL resource (api/v1alpha1/conditionalttl_types.go) and the
 * Ready-condition reasons (api/v1alpha1/conditions.go).
 *
 * Durations and instants are integers in one common unit.
 */
module ApiTypes {
  import opened Wrappers
  import opened CelValues

  /** A metav1.LabelSelector; matching objects against it is the cluster's job. */
  datatype LabelSelector = LabelSelector(matchLabels: map<string, string>)

  /**
   * How a target group is looked up: a single object by name, or a
   * collection by label selector. A name, when set, wins.
   */
  datatype TargetReference = TargetReference(
    apiVersion: string,
    kind: string,
    name: Option<string>,
    labelSelector: Option<LabelSelector>)

  datatype Target = Target(
    name: string,
    delete: bool,
    includeWhenEvaluating: bool,
    reference: TargetReference)

  datatype RetryConfig = RetryConfig(period: int)

  datatype HelmConfig = HelmConfig(release: string, delete: bool)

  datatype ConditionalTTLSpec = ConditionalTTLSpec(
    ttl: int,
    retry: Option<RetryConfig>,
    helm: Option<HelmConfig>,
    targets: seq<Target>,
    conditions: seq<string>,
    cloudEventSink: Option<string>)

  /** The observed state of one target; `state` is the object, or the collection, as resolved. */
  datatype TargetStatus = TargetStatus(
    name: string,
    delete: bool,
    includeWhenEvaluating: bool,
    state: Value)

  datatype ConditionStatus = True | False | Unknown

  /** The reasons of the Ready condition, one constant each. */
  datatype Reason =
    | NotExpired
    | KeepMinimumAmount
    | TargetResolveError
    | EnvironmentError
    | CompileError
    | EvaluationError
    | ResultNotBoolean
    | WaitingForConditions
    | Terminating

  function ReasonString(r: Reason): string
  {
    match r
    case NotExpired => "NotExpired"
    case KeepMinimumAmount => "KeepMinimumAmount"
    case TargetResolveError => "TargetResolveError"
    case EnvironmentError => "ConditionEnvironmentError"
    case CompileError => "ConditionCompileError"
    case EvaluationError => "ConditionEvaluationError"
    case ResultNotBoolean => "ConditionResultNotBoolean"
    case WaitingForConditions => "WaitingForConditions"
    case Terminating => "Terminating"
  }

  const ConditionTypeReady := "Ready"

  /** The Ready entry of status.conditions (its type is always Ready). */
  datatype Condition = Condition(
    status: ConditionStatus,
    reason: Reason,
    message: string,
    observedGeneration: int)

  datatype ConditionalTTLStatus = ConditionalTTLStatus(
    targets: seq<TargetStatus>,
    evaluationTime: Option<int>,
    ready: Option<Condition>)

  /**
   * The validation pattern of Target.Name,
   *   ^[^t].*|t($|[^i]).*|ti($|[^m]).*|tim($|[^e]).*|time.+
   * as Go's regexp searches for it: only the first alternative is anchored,
   * the others may match at any position, and `.` matches any character but
   * a newline.
   */
  predicate AlternativeAt(n: string, p: nat)
    requires p <= |n|
  {
    || (p == 0 && |n| >= 1 && n[0] != 't')
    || (p + 1 <= |n| && n[p] == 't' && (p + 1 == |n| || n[p + 1] != 'i'))
    || (p + 2 <= |n| && n[p..p + 2] == "ti" && (p + 2 == |n| || n[p + 2] != 'm'))
    || (p + 3 <= |n| && n[p..p + 3] == "tim" && (p + 3 == |n| || n[p + 3] != 'e'))
    || (p + 5 <= |n| && n[p..p + 4] == "time" && n[p + 4] != '\n')
  }

  predicate MatchesTargetNamePattern(n: string)
  {
    exists p: nat :: p <= |n| && AlternativeAt(n, p)
  }

  /** What the pattern is there for: a target name is any non-empty name but `time`. */
  predicate ValidTargetName(n: string)
  {
    n != "" && n != "time"
  }

  /** A name that the pattern accepts at its start. */
  lemma MatchesAtStart(n: string)
    requires ValidTargetName(n)
    requires |n| > 4 && n[..4] == "time" ==> n[4] != '\n'
    ensures AlternativeAt(n, 0)
  {
    if n[0] == 't' && |n| >= 2 && n[1] == 'i' {
      assert n[0..2] == "ti";
      if |n| >= 3 && n[2] == 'm' {
        assert n[0..3] == "tim";
        if |n| >= 4 && n[3] == 'e' {
          assert n[0..4] == "time";
        }
      }
    }
  }

  /** `time` itself is refused: no alternative matches it anywhere. */
  lemma TimeIsRefused()
    ensures !MatchesTargetNamePattern("time")
  {
    var n := "time";
    forall p: nat | p <= |n|
      ensures !AlternativeAt(n, p)
    {
      assert p < 4 ==> n[p] == ['t', 'i', 'm', 'e'][p];
    }
  }

  /** For names without a newline, the pattern accepts exactly the non-empty names other than `time`. */
  lemma TargetNamePattern(n: string)
    requires '\n' !in n
    ensures MatchesTargetNamePattern(n) <==> ValidTargetName(n)
  {
    if ValidTargetName(n) {
      if |n| > 4 {
        assert n[4] in n;
      }
      MatchesAtStart(n);
    } else if n == "time" {
      TimeIsRefused();
    }
  }

  /** A valid target name that the pattern refuses: `time` followed by a newline. */
  lemma TargetNamePatternRejectsTimeNewline()
    ensures ValidTargetName("time\nx") && !MatchesTargetNamePattern("time\nx")
  {
    var n := "time\nx";
    forall p: nat | p <= |n|
      ensures !AlternativeAt(n, p)
    {
      assert n[0] == 't' && n[1] == 'i' && n[2] == 'm' && n[3] == 'e' && n[4] == '\n' && n[5] == 'x';
      if p == 0 {
        assert n[0..2] == "ti" && n[0..3] == "tim" && n[0..4] == "time";
      }
    }
  }
}
