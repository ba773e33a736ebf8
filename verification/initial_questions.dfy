/** How the initial-questions handler gathers cluster context for a message:
    an ordered choice between a cluster overview, a namespace overview and a
    single-resource description, each answered by fixed Kubernetes queries.
    The Kubernetes client together with the YAML dump of its answer is one
    uninterpreted function from query to text; the string checks of the
    utilities module are parameters too. */
module InitialQuestions {
  import opened Wrappers
  import Ascii

  /** The message fields the handler reads; each may be missing. */
  datatype Message = Message(
    namespace: Option<string>,
    resourceKind: Option<string>,
    resourceName: Option<string>,
    resourceApiVersion: Option<string>)

  /** is_empty_str and is_non_empty_str, whose definitions are not part of
      this model. */
  datatype StringChecks = StringChecks(isEmpty: string -> bool, isNonEmpty: string -> bool)

  /** One Kubernetes client call, with the arguments it is given. */
  datatype K8sQuery =
    | NotRunningPods(namespace: string)
    | NodesMetrics
    | WarningEvents(namespace: string)
    | DescribeResource(apiVersion: string, kind: string, name: string, namespace: string)
    | EventsForResource(kind: string, name: string, namespace: string)

  /** The three ways of building context, and the case that raises. */
  datatype Branch =
    | ClusterOverview(namespace: string)
    | NamespaceOverview(namespace: string)
    | ResourceDetails(apiVersion: string, kind: string, name: string, namespace: string)
    | Unsupported

  /** `value or ""`: a missing field reads as the empty string. */
  function OrEmpty(field: Option<string>): (s: string)
    ensures field.None? ==> s == ""
    ensures field.Some? ==> s == field.value
  {
    match field
    case Some(v) => v
    case None => ""
  }

  predicate IsCluster(checks: StringChecks, namespace: string, kind: string) {
    checks.isEmpty(namespace) && Ascii.Lower(kind) == "cluster"
  }

  predicate IsNamespace(checks: StringChecks, namespace: string, kind: string) {
    checks.isNonEmpty(namespace) && Ascii.Lower(kind) == "namespace"
  }

  predicate IsResource(checks: StringChecks, kind: string, apiVersion: string) {
    checks.isNonEmpty(kind) && checks.isNonEmpty(apiVersion)
  }

  /** Chooses the branch: the guards are tried in order and the first that
      holds wins. */
  function SelectBranch(message: Message, checks: StringChecks): (b: Branch)
    ensures var ns, kind, av := OrEmpty(message.namespace), OrEmpty(message.resourceKind), OrEmpty(message.resourceApiVersion);
      && (b.ClusterOverview? <==> IsCluster(checks, ns, kind))
      && (b.NamespaceOverview? <==> !IsCluster(checks, ns, kind) && IsNamespace(checks, ns, kind))
      && (b.ResourceDetails? <==> !IsCluster(checks, ns, kind) && !IsNamespace(checks, ns, kind)
                                  && IsResource(checks, kind, av))
      && (!b.Unsupported? ==> b.namespace == ns)
      && (b.ResourceDetails? ==> b.apiVersion == av && b.kind == kind && b.name == OrEmpty(message.resourceName))
  {
    var ns := OrEmpty(message.namespace);
    var kind := OrEmpty(message.resourceKind);
    var name := OrEmpty(message.resourceName);
    var av := OrEmpty(message.resourceApiVersion);
    if IsCluster(checks, ns, kind) then ClusterOverview(ns)
    else if IsNamespace(checks, ns, kind) then NamespaceOverview(ns)
    else if IsResource(checks, kind, av) then ResourceDetails(av, kind, name, ns)
    else Unsupported
  }

  /** The client calls a branch makes, in the order it makes them. */
  function Queries(b: Branch): seq<K8sQuery> {
    match b
    case ClusterOverview(ns) => [NotRunningPods(ns), NodesMetrics, WarningEvents(ns)]
    case NamespaceOverview(ns) => [WarningEvents(ns)]
    case ResourceDetails(av, kind, name, ns) => [DescribeResource(av, kind, name, ns), EventsForResource(kind, name, ns)]
    case Unsupported => []
  }

  /** Joins texts with a newline between neighbours. */
  function JoinLines(parts: seq<string>): string {
    if |parts| == 0 then ""
    else if |parts| == 1 then parts[0]
    else parts[0] + "\n" + JoinLines(parts[1..])
  }

  lemma JoinLinesSmall(a: string, b: string, c: string)
    ensures JoinLines([a]) == a
    ensures JoinLines([a, b]) == a + "\n" + b
    ensures JoinLines([a, b, c]) == a + "\n" + b + "\n" + c
  {
    assert [a, b][1..] == [b];
    assert [a, b, c][1..] == [b, c];
    assert [b, c][1..] == [c];
    assert JoinLines([b, c]) == b + "\n" + c;
    assert JoinLines([a, b, c]) == a + "\n" + (b + "\n" + c);
    assert a + "\n" + (b + "\n" + c) == a + "\n" + b + "\n" + c;
  }

  function Answers(client: K8sQuery -> string, queries: seq<K8sQuery>): (r: seq<string>)
    ensures |r| == |queries|
    ensures forall i :: 0 <= i < |queries| ==> r[i] == client(queries[i])
  {
    seq(|queries|, i requires 0 <= i < |queries| => client(queries[i]))
  }

  /** fetch_relevant_data_from_k8s_cluster: the context text for a message,
      or "Invalid message provided." when no branch applies. */
  function FetchContext(message: Message, checks: StringChecks, client: K8sQuery -> string): (r: Result<string, Error>)
    ensures r.Failure? <==> SelectBranch(message, checks).Unsupported?
    ensures r.Failure? ==> r.error == InvalidMessage
    ensures r.Success? ==> r.value == JoinLines(Answers(client, Queries(SelectBranch(message, checks))))
  {
    match SelectBranch(message, checks)
    case ClusterOverview(ns) =>
      var pods := client(NotRunningPods(ns));
      var metrics := client(NodesMetrics);
      var events := client(WarningEvents(ns));
      JoinLinesSmall(pods, metrics, events);
      assert Answers(client, Queries(ClusterOverview(ns))) == [pods, metrics, events];
      Success(pods + "\n" + metrics + "\n" + events)
    case NamespaceOverview(ns) =>
      assert Answers(client, Queries(NamespaceOverview(ns))) == [client(WarningEvents(ns))];
      Success(client(WarningEvents(ns)))
    case ResourceDetails(av, kind, name, ns) =>
      var resources := client(DescribeResource(av, kind, name, ns));
      var events := client(EventsForResource(kind, name, ns));
      JoinLinesSmall(resources, events, "");
      assert Answers(client, Queries(ResourceDetails(av, kind, name, ns))) == [resources, events];
      Success(resources + "\n" + events)
    case Unsupported =>
      Failure(InvalidMessage)
  }

  /** The context each branch builds: pods, node metrics and warning events
      for the cluster, each namespaced query given the message's namespace;
      the warning events alone for a namespace; the resource description and
      its events, both given the same kind, name and namespace. */
  lemma ContextPerBranch(message: Message, checks: StringChecks, client: K8sQuery -> string)
    ensures var ns := OrEmpty(message.namespace);
      SelectBranch(message, checks).ClusterOverview? ==>
        FetchContext(message, checks, client)
          == Success(client(NotRunningPods(ns)) + "\n" + client(NodesMetrics) + "\n" + client(WarningEvents(ns)))
    ensures var ns := OrEmpty(message.namespace);
      SelectBranch(message, checks).NamespaceOverview? ==>
        FetchContext(message, checks, client) == Success(client(WarningEvents(ns)))
    ensures var ns, kind, name := OrEmpty(message.namespace), OrEmpty(message.resourceKind), OrEmpty(message.resourceName);
      SelectBranch(message, checks).ResourceDetails? ==>
        FetchContext(message, checks, client)
          == Success(client(DescribeResource(OrEmpty(message.resourceApiVersion), kind, name, ns)) + "\n"
                     + client(EventsForResource(kind, name, ns)))
  {
  }

  /** The cluster and namespace guards win over the resource guard: a message
      naming the cluster (or a namespace) with an API version still gets the
      overview, whatever the kind's letter case. */
  lemma GuardOrder(checks: StringChecks, kind: string, nsKind: string, apiVersion: string, namespace: string)
    requires checks.isEmpty("")
    requires Ascii.EqualIgnoringCase(kind, "cluster")
    requires Ascii.EqualIgnoringCase(nsKind, "namespace")
    ensures SelectBranch(Message(None, Some(kind), None, Some(apiVersion)), checks) == ClusterOverview("")
    ensures checks.isNonEmpty(namespace) ==>
      SelectBranch(Message(Some(namespace), Some(nsKind), None, Some(apiVersion)), checks) == NamespaceOverview(namespace)
  {
    Ascii.LowerEqualsIffIgnoringCase(kind, "cluster");
    Ascii.LowerEqualsIffIgnoringCase(nsKind, "namespace");
  }

  /** A message that fits no guard is refused; in particular one with neither
      a namespace overview nor a kind and API version. */
  lemma NoKindIsInvalid(checks: StringChecks, client: K8sQuery -> string)
    requires checks.isNonEmpty("") == false
    ensures FetchContext(Message(None, None, None, None), checks, client) == Failure(InvalidMessage)
  {
    assert Ascii.Lower("") == "";
  }
}
