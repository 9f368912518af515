/**
 * Association rules: which pairs of IO sources and actors a rule-based IO router has to
 * associate, and at which update rate.
 */
module IoRules {
  import opened Prelude
  import opened IoModel

  type Condition = (IoSource, IoNode, IoActor, IoNode, IoContext) -> bool

  /** A rule without a condition is ignored; a rule with value type "" is global. */
  datatype IoRule = IoRule(valueType: string, condition: Option<Condition>)

  /** One association held by the router. */
  datatype Association = Association(source: IoSource, actor: IoActor, rate: Option<real>)
  {
    function Pair(): Pair { (source.objectId, actor.objectId) }
  }

  /** A type-compatible pair with the nodes both points belong to. */
  datatype Candidate = Candidate(source: IoSource, sourceNode: IoNode, actor: IoActor, actorNode: IoNode)
  {
    function Pair(): Pair { (source.objectId, actor.objectId) }
  }

  /** Associations by source id and actor id. */
  type AssociationMap = map<Uuid, map<Uuid, Association>>

  // ---------------------------------------------------------------- update rates

  function Cumulate(rate1: Option<real>, rate2: Option<real>): Option<real> {
    if rate1.Some? then
      if rate2.Some? then Some(if rate2.value >= rate1.value then rate2.value else rate1.value) else rate1
    else rate2
  }

  /** `rate` is the greatest defined rate of `rates`, or undefined if there is none. */
  ghost predicate IsMaxRate(rate: Option<real>, rates: set<Option<real>>) {
    && (forall r <- rates :: r.Some? ==> rate.Some? && r.value <= rate.value)
    && (rate.Some? ==> rate in rates)
  }

  lemma MaxRateUnique(rate1: Option<real>, rate2: Option<real>, rates: set<Option<real>>)
    requires IsMaxRate(rate1, rates) && IsMaxRate(rate2, rates)
    ensures rate1 == rate2
  {
    if rate1.Some? { assert rate1 in rates; }
    if rate2.Some? { assert rate2 in rates; }
  }

  // ---------------------------------------------------------------- rules

  /** The rules with a condition, hashed by value type in the order of their definition. */
  function RuleTable(rules: seq<IoRule>): map<string, seq<Condition>> {
    if rules == [] then map[]
    else
      var table := RuleTable(rules[..|rules| - 1]);
      var rule := rules[|rules| - 1];
      if rule.condition.None? then table
      else table[rule.valueType :=
                   (if rule.valueType in table then table[rule.valueType] else []) + [rule.condition.value]]
  }

  /** The rules that decide on a source: those for its value type, else the global ones. */
  function Applicable(rules: map<string, seq<Condition>>, valueType: string): seq<Condition> {
    if valueType in rules then rules[valueType]
    else if "" in rules then rules[""]
    else []
  }

  ghost predicate DefinesRule(rules: seq<IoRule>, valueType: string, c: Condition) {
    exists i | 0 <= i < |rules| :: rules[i].valueType == valueType && rules[i].condition == Some(c)
  }

  lemma {:induction false} RuleTableHolds(rules: seq<IoRule>, valueType: string)
    ensures valueType in RuleTable(rules) <==> exists c :: DefinesRule(rules, valueType, c)
    ensures valueType in RuleTable(rules) ==>
              forall c :: c in RuleTable(rules)[valueType] <==> DefinesRule(rules, valueType, c)
  {
    if rules != [] {
      var n := |rules| - 1;
      var front, rule := rules[..n], rules[n];
      RuleTableHolds(front, valueType);
      forall c
        ensures DefinesRule(rules, valueType, c) <==>
                DefinesRule(front, valueType, c) || (rule.valueType == valueType && rule.condition == Some(c))
      {
        if DefinesRule(front, valueType, c) {
          var i :| 0 <= i < n && front[i].valueType == valueType && front[i].condition == Some(c);
          assert rules[i] == front[i];
        }
        if DefinesRule(rules, valueType, c) {
          var i :| 0 <= i < |rules| && rules[i].valueType == valueType && rules[i].condition == Some(c);
          if i < n { assert front[i] == rules[i]; }
        }
        if rule.valueType == valueType && rule.condition == Some(c) {
          assert rules[n].valueType == valueType;
        }
      }
      if rule.condition.Some? && rule.valueType == valueType {
        assert DefinesRule(rules, valueType, rule.condition.value);
      }
    }
  }

  /**
   * Rules made for the value type of a source shadow the global rules: a condition is
   * consulted iff it is defined for that value type, or it is defined globally and no
   * condition is defined for that value type.
   */
  lemma SpecificRulesShadowGlobalOnes(rules: seq<IoRule>, valueType: string, c: Condition)
    ensures c in Applicable(RuleTable(rules), valueType) <==>
            || DefinesRule(rules, valueType, c)
            || (DefinesRule(rules, "", c) && !exists d :: DefinesRule(rules, valueType, d))
  {
    RuleTableHolds(rules, valueType);
    RuleTableHolds(rules, "");
  }

  // ---------------------------------------------------------------- points of the managed nodes

  function AddSources(table: map<Uuid, (IoSource, IoNode)>, node: IoNode, sources: seq<IoSource>)
    : map<Uuid, (IoSource, IoNode)>
  {
    if sources == [] then table
    else
      var last := sources[|sources| - 1];
      AddSources(table, node, sources[..|sources| - 1])[last.objectId := (last, node)]
  }

  function AddActors(table: map<Uuid, (IoActor, IoNode)>, node: IoNode, actors: seq<IoActor>)
    : map<Uuid, (IoActor, IoNode)>
  {
    if actors == [] then table
    else
      var last := actors[|actors| - 1];
      AddActors(table, node, actors[..|actors| - 1])[last.objectId := (last, node)]
  }

  /** The sources of the nodes by id; of two sources with one id the later one counts. */
  function SourceTable(nodes: seq<IoNode>): map<Uuid, (IoSource, IoNode)> {
    if nodes == [] then map[]
    else
      var last := nodes[|nodes| - 1];
      AddSources(SourceTable(nodes[..|nodes| - 1]), last, last.ioSources)
  }

  function ActorTable(nodes: seq<IoNode>): map<Uuid, (IoActor, IoNode)> {
    if nodes == [] then map[]
    else
      var last := nodes[|nodes| - 1];
      AddActors(ActorTable(nodes[..|nodes| - 1]), last, last.ioActors)
  }

  lemma {:induction false} AddSourcesKeyed(table: map<Uuid, (IoSource, IoNode)>, node: IoNode, sources: seq<IoSource>)
    ensures var t := AddSources(table, node, sources);
            && (forall id <- t :: (id in table && t[id] == table[id]) ||
                                  (t[id].0 in sources && t[id].0.objectId == id && t[id].1 == node))
            && (forall id <- table :: id in t)
            && (forall s <- sources :: s.objectId in t)
  {
    if sources != [] {
      AddSourcesKeyed(table, node, sources[..|sources| - 1]);
    }
  }

  /** Every source of a node is in the table, and the table holds nothing else. */
  lemma {:induction false} SourceTableKeyed(nodes: seq<IoNode>)
    ensures var t := SourceTable(nodes);
            && (forall id <- t :: t[id].0.objectId == id && t[id].1 in nodes && t[id].0 in t[id].1.ioSources)
            && (forall n <- nodes, s <- n.ioSources :: s.objectId in t)
  {
    if nodes != [] {
      var last := nodes[|nodes| - 1];
      SourceTableKeyed(nodes[..|nodes| - 1]);
      AddSourcesKeyed(SourceTable(nodes[..|nodes| - 1]), last, last.ioSources);
    }
  }

  lemma {:induction false} AddActorsKeyed(table: map<Uuid, (IoActor, IoNode)>, node: IoNode, actors: seq<IoActor>)
    ensures var t := AddActors(table, node, actors);
            && (forall id <- t :: (id in table && t[id] == table[id]) ||
                                  (t[id].0 in actors && t[id].0.objectId == id && t[id].1 == node))
            && (forall id <- table :: id in t)
            && (forall a <- actors :: a.objectId in t)
  {
    if actors != [] {
      AddActorsKeyed(table, node, actors[..|actors| - 1]);
    }
  }

  lemma {:induction false} ActorTableKeyed(nodes: seq<IoNode>)
    ensures var t := ActorTable(nodes);
            && (forall id <- t :: t[id].0.objectId == id && t[id].1 in nodes && t[id].0 in t[id].1.ioActors)
            && (forall n <- nodes, a <- n.ioActors :: a.objectId in t)
  {
    if nodes != [] {
      var last := nodes[|nodes| - 1];
      ActorTableKeyed(nodes[..|nodes| - 1]);
      AddActorsKeyed(ActorTable(nodes[..|nodes| - 1]), last, last.ioActors);
    }
  }

  // ---------------------------------------------------------------- what the rules ask for

  /** Everything the outcome of a rule evaluation depends on. */
  datatype Config = Config(nodes: seq<IoNode>, rules: map<string, seq<Condition>>, context: IoContext)

  /** What the router takes for compatible unless a subclass decides otherwise. */
  predicate Compatible(source: IoSource, actor: IoActor) {
    source.valueType == actor.valueType && source.useRawIoValues == actor.useRawIoValues
  }

  ghost predicate Fires(cfg: Config, c: Candidate) {
    exists rule <- Applicable(cfg.rules, c.source.valueType) ::
      rule(c.source, c.sourceNode, c.actor, c.actorNode, cfg.context)
  }

  /** The pair `p` of managed points, if they agree in value type and in the use of raw values. */
  ghost function CandidateFor(cfg: Config, p: Pair): (c: Option<Candidate>)
    ensures c.Some? ==> c.value.Pair() == p
  {
    SourceTableKeyed(cfg.nodes);
    ActorTableKeyed(cfg.nodes);
    var sources, actors := SourceTable(cfg.nodes), ActorTable(cfg.nodes);
    if p.0 in sources && p.1 in actors && sources[p.0].0.valueType == actors[p.1].0.valueType &&
       sources[p.0].0.useRawIoValues == actors[p.1].0.useRawIoValues then
      Some(Candidate(sources[p.0].0, sources[p.0].1, actors[p.1].0, actors[p.1].1))
    else None
  }

  /**
   * The pair `p` is to be associated: both points are managed, they agree in value type and in
   * the use of raw values, and a rule that decides on the source holds for them and their nodes.
   */
  ghost predicate Wanted(cfg: Config, p: Pair) {
    var sources, actors := SourceTable(cfg.nodes), ActorTable(cfg.nodes);
    && p.0 in sources && p.1 in actors
    && var (source, sourceNode), (actor, actorNode) := sources[p.0], actors[p.1];
    && source.valueType == actor.valueType
    && source.useRawIoValues == actor.useRawIoValues
    && exists rule <- Applicable(cfg.rules, source.valueType) ::
         rule(source, sourceNode, actor, actorNode, cfg.context)
  }

  lemma WantedCandidate(cfg: Config, p: Pair)
    ensures Wanted(cfg, p) <==> CandidateFor(cfg, p).Some? && Fires(cfg, CandidateFor(cfg, p).value)
    ensures CandidateFor(cfg, p).Some? ==>
              && p.0 in SourceTable(cfg.nodes) && p.1 in ActorTable(cfg.nodes)
              && CandidateFor(cfg, p).value.source == SourceTable(cfg.nodes)[p.0].0
              && CandidateFor(cfg, p).value.actor == ActorTable(cfg.nodes)[p.1].0
  {
    hide SourceTable, ActorTable, Applicable;
  }

  /** The rates of the source `s` itself and of the actors `m` associates with it. */
  ghost function RatesAround(m: map<Pair, Association>, s: Uuid): set<Option<real>> {
    (set p | p in m && p.0 == s :: m[p].source.updateRate) +
    (set p | p in m && p.0 == s :: m[p].actor.updateRate)
  }

  /**
   * `m` is the outcome of a rule evaluation: it associates exactly the wanted pairs, holds
   * the managed source and actor objects, and gives all associations of one source one
   * rate, the maximum of all defined rates around that source.
   */
  ghost predicate Resolved(cfg: Config, m: map<Pair, Association>) {
    && (forall p :: p in m <==> Wanted(cfg, p))
    && (forall p <- m ::
          && m[p].source == SourceTable(cfg.nodes)[p.0].0
          && m[p].actor == ActorTable(cfg.nodes)[p.1].0
          && IsMaxRate(m[p].rate, RatesAround(m, p.0)))
  }

  /** Associated sources and actors are those of the managed nodes. */
  lemma ResolvedFromTables(cfg: Config, m: map<Pair, Association>, p: Pair)
    requires Resolved(cfg, m) && p in m
    ensures p.0 in SourceTable(cfg.nodes) && m[p].source == SourceTable(cfg.nodes)[p.0].0
    ensures p.1 in ActorTable(cfg.nodes) && m[p].actor == ActorTable(cfg.nodes)[p.1].0
  {
    hide IsMaxRate, SourceTable, ActorTable, RatesAround;
    assert Wanted(cfg, p);
  }

  /** Associated points agree in value type and in the use of raw values. */
  lemma AssociatedPointsFit(cfg: Config, m: map<Pair, Association>)
    requires Resolved(cfg, m)
    ensures forall p <- m ::
              && m[p].source.valueType == m[p].actor.valueType
              && m[p].source.useRawIoValues == m[p].actor.useRawIoValues
  {
    hide IsMaxRate, SourceTable, ActorTable, RatesAround, Applicable;
    forall p | p in m
      ensures m[p].source.valueType == m[p].actor.valueType
      ensures m[p].source.useRawIoValues == m[p].actor.useRawIoValues
    {
      assert Wanted(cfg, p);
    }
  }

  /** Two outcomes of the same size and objects see the same rates. */
  lemma SameRatesAround(m1: map<Pair, Association>, m2: map<Pair, Association>, s: Uuid)
    requires m1.Keys == m2.Keys
    requires forall p <- m1 :: m1[p].source == m2[p].source && m1[p].actor == m2[p].actor
    ensures RatesAround(m1, s) == RatesAround(m2, s)
  {
    assert (set p | p in m1 && p.0 == s :: m1[p].source.updateRate) ==
           (set p | p in m2 && p.0 == s :: m2[p].source.updateRate);
    assert (set p | p in m1 && p.0 == s :: m1[p].actor.updateRate) ==
           (set p | p in m2 && p.0 == s :: m2[p].actor.updateRate);
  }

  /** The outcome of a rule evaluation does not depend on any iteration order. */
  lemma ResolvedUnique(cfg: Config, m1: map<Pair, Association>, m2: map<Pair, Association>)
    requires Resolved(cfg, m1) && Resolved(cfg, m2)
    ensures m1 == m2
  {
    assert m1.Keys == m2.Keys;
    forall p | p in m1
      ensures m1[p] == m2[p]
    {
      SameRatesAround(m1, m2, p.0);
      MaxRateUnique(m1[p].rate, m2[p].rate, RatesAround(m1, p.0));
    }
  }

  /** All associations of one source carry the same update rate. */
  lemma OneRatePerSource(cfg: Config, m: map<Pair, Association>, p: Pair, q: Pair)
    requires Resolved(cfg, m) && p in m && q in m && p.0 == q.0
    ensures m[p].rate == m[q].rate
  {
    MaxRateUnique(m[p].rate, m[q].rate, RatesAround(m, p.0));
  }
}
