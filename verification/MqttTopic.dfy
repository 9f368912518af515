/**
 * MQTT topics of Coaty communication events: printing, parsing, and matching them against
 * subscription filters. Strings are sequences of Unicode scalar values.
 */
module MqttTopic {
  import opened Prelude

  datatype EventType =
    | Raw
    | Advertise | Deadvertise | Channel | Associate | IoValue
    | Discover | Resolve | Query | Retrieve | Update | Complete | Call | Return

  predicate IsOneWay(t: EventType) {
    t.Advertise? || t.Deadvertise? || t.Channel? || t.Associate? || t.IoValue?
  }

  /** The code of an event type in the event level of a topic; Raw events have none. */
  function Code(t: EventType): (code: string)
    requires !t.Raw?
    ensures |code| == 3 && forall c <- code :: c != '/' && c != ':' && c != '+' && c != '#'
  {
    match t
    case Advertise => "ADV"
    case Deadvertise => "DAD"
    case Channel => "CHN"
    case Associate => "ASC"
    case IoValue => "IOV"
    case Discover => "DSC"
    case Resolve => "RSV"
    case Query => "QRY"
    case Retrieve => "RTV"
    case Update => "UPD"
    case Complete => "CPL"
    case Call => "CLL"
    case Return => "RTN"
  }

  function TypeOf(code: string): Option<EventType> {
    if code == "ADV" then Some(Advertise)
    else if code == "DAD" then Some(Deadvertise)
    else if code == "CHN" then Some(Channel)
    else if code == "ASC" then Some(Associate)
    else if code == "IOV" then Some(IoValue)
    else if code == "DSC" then Some(Discover)
    else if code == "RSV" then Some(Resolve)
    else if code == "QRY" then Some(Query)
    else if code == "RTV" then Some(Retrieve)
    else if code == "UPD" then Some(Update)
    else if code == "CPL" then Some(Complete)
    else if code == "CLL" then Some(Call)
    else if code == "RTN" then Some(Return)
    else None
  }

  lemma TypeOfCode(t: EventType)
    requires !t.Raw?
    ensures TypeOf(Code(t)) == Some(t)
  {
    match t
    case Advertise => case Deadvertise => case Channel => case Associate => case IoValue =>
    case Discover => case Resolve => case Query => case Retrieve => case Update =>
    case Complete => case Call => case Return =>
  }

  lemma CodeOfType(code: string)
    ensures TypeOf(code).Some? ==> !TypeOf(code).value.Raw? && Code(TypeOf(code).value) == code
  {
  }

  // ---------------------------------------------------------------- topic levels

  /** `s.split("/")`. */
  function Split(s: string): (levels: seq<string>)
    ensures |levels| > 0
  {
    if s == "" then [""]
    else if s[0] == '/' then [""] + Split(s[1..])
    else var rest := Split(s[1..]); [[s[0]] + rest[0]] + rest[1..]
  }

  predicate IsLevel(s: string) {
    '/' !in s
  }

  /** A topic level followed by further levels. */
  function Under(level: string, rest: string): string {
    level + "/" + rest
  }

  lemma {:induction false} SplitLevel(level: string)
    requires IsLevel(level)
    ensures Split(level) == [level]
  {
    if level != "" {
      SplitLevel(level[1..]);
      assert level == [level[0]] + level[1..];
    }
  }

  lemma {:induction false} SplitUnder(level: string, rest: string)
    requires IsLevel(level)
    ensures Split(Under(level, rest)) == [level] + Split(rest)
  {
    var s := Under(level, rest);
    if level == "" {
      assert s[1..] == rest;
    } else {
      assert s[1..] == Under(level[1..], rest);
      SplitUnder(level[1..], rest);
      assert level == [level[0]] + level[1..];
    }
  }

  // ---------------------------------------------------------------- printing

  /** A JavaScript condition on a string that may be undefined. */
  predicate Given(s: Option<string>) {
    s.Some? && s.value != ""
  }

  function EventLevel(t: EventType, filter: Option<string>): string
    requires !t.Raw?
  {
    if Given(filter) then Code(t) + ":" + filter.value else Code(t)
  }

  /** The topic an event is published on. */
  function GetTopicName(version: nat, namespace: string, t: EventType, filter: Option<string>,
                        sourceId: string, correlationId: Option<string>): string
    requires !t.Raw?
  {
    var end := if IsOneWay(t) then sourceId
               else Under(sourceId, if correlationId.Some? then correlationId.value else "undefined");
    Under("coaty", Under(Decimal(version), Under(namespace, Under(EventLevel(t, filter), end))))
  }

  /** The filter to subscribe for events of a type. */
  function GetTopicFilter(version: nat, namespace: Option<string>, t: EventType, filter: Option<string>,
                          correlationId: Option<string>): string
    requires !t.Raw?
  {
    var end := if IsOneWay(t) then "+"
               else Under("+", if Given(correlationId) then correlationId.value else "+");
    Under("coaty", Under(Decimal(version),
      Under(if Given(namespace) then namespace.value else "+", Under(EventLevel(t, filter), end))))
  }

  lemma DecimalIsLevel(n: nat)
    ensures IsLevel(Decimal(n)) && Decimal(n) != "+" && Decimal(n) != "#"
  {
    assert Decimal(n)[0] != '+' && Decimal(n)[0] != '#';
  }

  lemma EventLevelIsLevel(t: EventType, filter: Option<string>)
    requires !t.Raw? && (filter.Some? ==> IsLevel(filter.value))
    ensures IsLevel(EventLevel(t, filter))
  {
  }

  lemma TopicNameLevels(version: nat, namespace: string, t: EventType, filter: Option<string>,
                        sourceId: string, correlationId: Option<string>)
    requires !t.Raw? && IsLevel(namespace) && IsLevel(sourceId)
    requires filter.Some? ==> IsLevel(filter.value)
    requires correlationId.Some? ==> IsLevel(correlationId.value)
    ensures Split(GetTopicName(version, namespace, t, filter, sourceId, correlationId)) ==
            ["coaty", Decimal(version), namespace, EventLevel(t, filter), sourceId] +
            (if IsOneWay(t) then [] else [if correlationId.Some? then correlationId.value else "undefined"])
  {
    hide Split, Under, EventLevel;
    var c := if correlationId.Some? then correlationId.value else "undefined";
    var end := if IsOneWay(t) then sourceId else Under(sourceId, c);
    SplitLevel(sourceId);
    SplitLevel(c);
    SplitUnder(sourceId, c);
    DecimalIsLevel(version);
    EventLevelIsLevel(t, filter);
    var three := Under(EventLevel(t, filter), end);
    var two := Under(namespace, three);
    SplitUnder(EventLevel(t, filter), end);
    SplitUnder(namespace, three);
    SplitUnder(Decimal(version), two);
    SplitUnder("coaty", Under(Decimal(version), two));
  }

  lemma TopicFilterLevels(version: nat, namespace: Option<string>, t: EventType, filter: Option<string>,
                          correlationId: Option<string>)
    requires !t.Raw? && (namespace.Some? ==> IsLevel(namespace.value))
    requires filter.Some? ==> IsLevel(filter.value)
    requires correlationId.Some? ==> IsLevel(correlationId.value)
    ensures Split(GetTopicFilter(version, namespace, t, filter, correlationId)) ==
            ["coaty", Decimal(version), if Given(namespace) then namespace.value else "+", EventLevel(t, filter), "+"] +
            (if IsOneWay(t) then [] else [if Given(correlationId) then correlationId.value else "+"])
  {
    hide Split, Under, EventLevel;
    var ns := if Given(namespace) then namespace.value else "+";
    var c := if Given(correlationId) then correlationId.value else "+";
    var end := if IsOneWay(t) then "+" else Under("+", c);
    SplitLevel("+");
    SplitLevel(c);
    SplitUnder("+", c);
    DecimalIsLevel(version);
    EventLevelIsLevel(t, filter);
    var three := Under(EventLevel(t, filter), end);
    var two := Under(ns, three);
    SplitUnder(EventLevel(t, filter), end);
    SplitUnder(ns, three);
    SplitUnder(Decimal(version), two);
    SplitUnder("coaty", Under(Decimal(version), two));
  }

  // ---------------------------------------------------------------- parsing

  datatype Topic = Topic(version: Option<nat>, namespace: Option<string>, eventType: Option<EventType>,
                         eventTypeFilter: Option<string>, sourceId: Option<string>, correlationId: Option<string>)

  /** `NotCoaty` for Raw and external IO value topics; `TypeError` is the exception on a missing event level. */
  datatype Parsed = NotCoaty | TypeError | Coaty(topic: Topic)

  predicate IsCoatyTopicLike(topicName: string) {
    "coaty/" <= topicName
  }

  function Level(levels: seq<string>, i: nat): Option<string> {
    if i < |levels| then Some(levels[i]) else None
  }

  /** The position of the first ':' or the length of the string. */
  function SeparatorIndex(s: string): (i: nat)
    ensures i <= |s| && ':' !in s[..i] && (i < |s| ==> s[i] == ':')
  {
    if s == "" || s[0] == ':' then 0 else 1 + SeparatorIndex(s[1..])
  }

  function ParseEvent(event: string): (Option<EventType>, Option<string>) {
    var i := SeparatorIndex(event);
    if i == |event| then (TypeOf(event), None) else (TypeOf(event[..i]), Some(event[i + 1..]))
  }

  function CreateByName(topicName: string): Parsed {
    if !IsCoatyTopicLike(topicName) then NotCoaty
    else
      var levels := Split(topicName);
      if |levels| <= 3 then TypeError
      else
        var (eventType, filter) := ParseEvent(levels[3]);
        var correlationId := Level(levels, 5);
        Coaty(Topic(ParseInt(levels[1]), Some(levels[2]), eventType, filter, Level(levels, 4),
                    if correlationId == Some("") then None else correlationId))
  }

  lemma ParseEventLevel(t: EventType, filter: Option<string>)
    requires !t.Raw?
    ensures ParseEvent(EventLevel(t, filter)) == (Some(t), if Given(filter) then filter else None)
  {
    TypeOfCode(t);
    var level := EventLevel(t, filter);
    var i := SeparatorIndex(level);
    assert forall k | 0 <= k < 3 :: level[k] == Code(t)[k];
    if Given(filter) {
      assert level[3] == ':' && level[..3] == Code(t) && level[4..] == filter.value;
      assert i == 3;
    } else {
      assert i == 3 == |level|;
    }
  }

  /** Parsing a published topic recovers every component it was made of. */
  lemma ParseTopicName(version: nat, namespace: string, t: EventType, filter: Option<string>,
                       sourceId: string, correlationId: Option<string>)
    requires !t.Raw? && IsLevel(namespace) && IsLevel(sourceId)
    requires filter.Some? ==> IsLevel(filter.value)
    requires correlationId.Some? ==> IsLevel(correlationId.value)
    requires !IsOneWay(t) ==> Given(correlationId)
    ensures CreateByName(GetTopicName(version, namespace, t, filter, sourceId, correlationId)) ==
            Coaty(Topic(Some(version), Some(namespace), Some(t), if Given(filter) then filter else None,
                        Some(sourceId), if IsOneWay(t) then None else correlationId))
  {
    hide Split, EventLevel, ParseEvent, ParseInt;
    TopicNameLevels(version, namespace, t, filter, sourceId, correlationId);
    ParseEventLevel(t, filter);
    ParseDecimal(version);
  }

  /** `levels.join("/")`. */
  function Join(levels: seq<string>): string
    requires levels != []
  {
    if |levels| == 1 then levels[0] else Under(levels[0], Join(levels[1..]))
  }

  lemma {:induction false} JoinSplit(s: string)
    ensures Join(Split(s)) == s
  {
    if s != "" {
      var rest := Split(s[1..]);
      JoinSplit(s[1..]);
      if s[0] == '/' {
        assert Split(s)[1..] == rest;
        assert s == Under("", s[1..]);
      } else {
        assert Split(s)[1..] == rest[1..];
        assert s == [s[0]] + s[1..];
        assert |rest| > 1 ==> Under([s[0]] + rest[0], Join(rest[1..])) == [s[0]] + Under(rest[0], Join(rest[1..]));
      }
    }
  }

  lemma ParsedEventLevel(event: string)
    ensures var (t, filter) := ParseEvent(event);
            t.Some? && filter != Some("") ==> !t.value.Raw? && event == EventLevel(t.value, filter)
  {
    hide TypeOf, Code;
    var i := SeparatorIndex(event);
    CodeOfType(event[..i]);
    assert i == |event| ==> event[..i] == event;
    assert i < |event| ==> event == event[..i] + ":" + event[i + 1..];
  }

  /** The topic has the levels of its event type, in the form in which they are printed. */
  predicate IsCanonical(topicName: string, topic: Topic) {
    var levels := Split(topicName);
    && |levels| > 3 && topic.version.Some? && levels[1] == Decimal(topic.version.value)
    && topic.eventType.Some? && topic.eventTypeFilter != Some("")
    && |levels| == (if IsOneWay(topic.eventType.value) then 5 else 6)
    && (IsOneWay(topic.eventType.value) || topic.correlationId.Some?)
  }

  /** Printing the components of a parsed topic in canonical form gives the topic back. */
  lemma PrintParsedTopic(topicName: string)
    requires CreateByName(topicName).Coaty? && IsCanonical(topicName, CreateByName(topicName).topic)
    ensures var topic := CreateByName(topicName).topic;
            && !topic.eventType.value.Raw? && topic.namespace.Some? && topic.sourceId.Some?
            && GetTopicName(topic.version.value, topic.namespace.value, topic.eventType.value, topic.eventTypeFilter,
                            topic.sourceId.value, topic.correlationId) == topicName
  {
    var levels, topic := Split(topicName), CreateByName(topicName).topic;
    JoinSplit(topicName);
    ParsedEventLevel(levels[3]);
    SplitUnder("coaty", topicName[|"coaty/"|..]);
    assert topicName == Under("coaty", topicName[|"coaty/"|..]);
    hide Split, EventLevel, ParseEvent, ParseInt, Under;
    JoinLevels(levels);
  }

  lemma JoinLevels(levels: seq<string>)
    requires 5 <= |levels| <= 6
    ensures Join(levels) == Under(levels[0], Under(levels[1], Under(levels[2], Under(levels[3],
              if |levels| == 5 then levels[4] else Under(levels[4], levels[5])))))
  {
    hide Under;
    var rest := levels[1..][1..][1..];
    assert levels[1..][1..] == levels[2..] && rest == levels[3..];
    assert rest[1..] == levels[4..] && (|levels| == 6 ==> rest[1..][1..] == levels[5..]);
    assert Join(levels) == Under(levels[0], Join(levels[1..]));
    assert Join(levels[1..]) == Under(levels[1], Join(levels[2..]));
    assert Join(levels[2..]) == Under(levels[2], Join(levels[3..]));
    assert Join(levels[3..]) == Under(levels[3], Join(levels[4..]));
    assert |levels| == 6 ==> Join(levels[4..]) == Under(levels[4], Join(levels[5..]));
  }

  // ---------------------------------------------------------------- matching

  /** The first `k` filter levels accept the topic levels at their positions. */
  ghost predicate Agree(topic: seq<string>, filter: seq<string>, k: nat)
    requires k <= |topic| && k <= |filter|
  {
    forall i | 0 <= i < k :: filter[i] != "#" && (filter[i] == "+" || filter[i] == topic[i])
  }

  /**
   * Sections 4.7.1.2 and 4.7.1.3 of MQTT 3.1.1: `+` stands for one level, a final `#` for
   * the parent and any levels below.
   */
  ghost predicate LevelsMatch(topic: seq<string>, filter: seq<string>)
    requires filter != []
  {
    var n := |filter| - 1;
    if filter[n] == "#" then n <= |topic| && Agree(topic, filter, n)
    else |topic| == n + 1 && Agree(topic, filter, n + 1)
  }

  /**
   * A filter ending in `#` that names more levels than the topic has, where all surplus
   * levels are `+` or empty.
   */
  ghost predicate Overmatches(topic: seq<string>, filter: seq<string>)
    requires filter != []
  {
    var n := |filter| - 1;
    && filter[n] == "#" && |topic| < n && Agree(topic, filter, |topic|)
    && forall i | |topic| <= i < n :: filter[i] == "+" || filter[i] == ""
  }

  /** The levels match as MQTT 3.1.1 demands, or the filter overmatches. */
  ghost predicate Accepts(topic: string, filter: string) {
    topic != "" && filter != "" &&
    (LevelsMatch(Split(topic), Split(filter)) || Overmatches(Split(topic), Split(filter)))
  }

  method Matches(topic: string, filter: string) returns (r: bool)
    ensures r == Accepts(topic, filter)
  {
    if topic == "" || filter == "" {
      return false;
    }
    var patternLevels, topicLevels := Split(filter), Split(topic);
    var lastIndex := |patternLevels| - 1;
    var i := 0;
    while i <= lastIndex
      invariant 0 <= i <= lastIndex + 1
      invariant forall k | 0 <= k < i :: patternLevels[k] != "#"
      invariant forall k | 0 <= k < i && k < |topicLevels| ::
                  patternLevels[k] == "+" || patternLevels[k] == topicLevels[k]
      invariant forall k | |topicLevels| <= k < i :: patternLevels[k] == "+" || patternLevels[k] == ""
    {
      var pattern := patternLevels[i];
      var isFalsy := i >= |topicLevels| || topicLevels[i] == "";
      if isFalsy && pattern == "" {
      } else if isFalsy && pattern == "+" {
      } else if isFalsy && pattern != "#" {
        return false;
      } else if pattern == "#" {
        return i == lastIndex;
      } else if pattern != "+" && pattern != topicLevels[i] {
        return false;
      }
      i := i + 1;
    }
    return |patternLevels| == |topicLevels|;
  }

  /** Section 4.7 of MQTT 3.1.1, with section 4.7.2: no leading wildcard matches a topic beginning with `$`. */
  ghost predicate Mqtt311Matches(topic: string, filter: string)
    requires topic != "" && filter != ""
  {
    && LevelsMatch(Split(topic), Split(filter))
    && !(topic[0] == '$' && (filter[0] == '+' || filter[0] == '#'))
  }

  /** Exactly when `Matches` answers as MQTT 3.1.1 demands. */
  lemma MatchesIsMqtt311(topic: string, filter: string)
    requires topic != "" && filter != ""
    ensures var t, f := Split(topic), Split(filter);
            (Accepts(topic, filter) <==> Mqtt311Matches(topic, filter)) <==>
            !Overmatches(t, f) &&
            !(topic[0] == '$' && (filter[0] == '+' || filter[0] == '#') && LevelsMatch(t, f))
  {
    hide Split;
    var t, f := Split(topic), Split(filter);
    assert Overmatches(t, f) ==> !LevelsMatch(t, f);
  }

  /** In particular: for topics not beginning with `$` that have all the levels a filter names. */
  lemma MatchesLongTopics(topic: string, filter: string)
    requires topic != "" && filter != "" && topic[0] != '$'
    requires |Split(filter)| - 1 <= |Split(topic)|
    ensures (LevelsMatch(Split(topic), Split(filter)) || Overmatches(Split(topic), Split(filter))) <==>
            Mqtt311Matches(topic, filter)
  {
    MatchesIsMqtt311(topic, filter);
  }

  /** A topic that a filter ending in `#` matches in the code, but not in MQTT 3.1.1. */
  lemma OvermatchExample()
    ensures Overmatches(Split("a"), Split("a/+/#")) && !Mqtt311Matches("a", "a/+/#")
  {
    SplitLevel("a");
    SplitLevel("#");
    SplitUnder("+", "#");
    SplitUnder("a", "+/#");
    assert Under("+", "#") == "+/#" && Under("a", "+/#") == "a/+/#";
  }

  predicate IsPlain(s: string) {
    forall c <- s :: c != '/' && c != '+' && c != '#'
  }

  /** A component given to a filter restricts it, a component not given does not. */
  predicate AgreesIfGiven(component: string, given: Option<string>) {
    Given(given) ==> component == given.value
  }

  lemma {:induction false} DecimalInjective(n: nat, m: nat)
    requires Decimal(n) == Decimal(m)
    ensures n == m
  {
    ParseDecimal(n);
    ParseDecimal(m);
  }

  /** Event levels tell event types and event filters apart. */
  lemma EventLevelInjective(t: EventType, filter: Option<string>, t': EventType, filter': Option<string>)
    requires !t.Raw? && !t'.Raw?
    ensures EventLevel(t, filter) == EventLevel(t', filter') <==>
            t == t' && if Given(filter) then filter' == filter else !Given(filter')
  {
    ParseEventLevel(t, filter);
    ParseEventLevel(t', filter');
  }

  predicate LevelAgrees(level: string, pattern: string) {
    pattern != "#" && (pattern == "+" || pattern == level)
  }

  /** Agreement of topics with five or six levels, level by level. */
  lemma AgreeByLevel(name: seq<string>, pattern: seq<string>)
    requires |name| == |pattern| && 5 <= |name| <= 6
    ensures Agree(name, pattern, |pattern|) <==>
            && LevelAgrees(name[0], pattern[0]) && LevelAgrees(name[1], pattern[1]) && LevelAgrees(name[2], pattern[2])
            && LevelAgrees(name[3], pattern[3]) && LevelAgrees(name[4], pattern[4])
            && (|name| == 6 ==> LevelAgrees(name[5], pattern[5]))
  {
  }

  lemma EventLevelIsNoWildcard(t: EventType, filter: Option<string>)
    requires !t.Raw?
    ensures EventLevel(t, filter) != "+" && EventLevel(t, filter) != "#"
  {
    assert |EventLevel(t, filter)| >= 3;
  }

  /** A component given to a filter restricts it, a component not given does not. */
  lemma ComponentAgrees(component: string, given: Option<string>)
    requires given.Some? ==> IsPlain(given.value)
    ensures var pattern := if Given(given) then given.value else "+";
            pattern != "#" && (LevelAgrees(component, pattern) <==> AgreesIfGiven(component, given))
  {
    assert !IsPlain("#") by { assert '#' in "#"; }
    assert !IsPlain("+") by { assert '+' in "+"; }
  }

  /**
   * A published topic matches a subscription filter iff version, event type and event
   * filter agree, the namespace agrees or is left open, and for two-way events the
   * correlation id agrees or is left open.
   */
  lemma NameMatchesFilter(
    version: nat, namespace: string, t: EventType, filter: Option<string>, sourceId: string, correlationId: string,
    version': nat, namespace': Option<string>, t': EventType, filter': Option<string>, correlationId': Option<string>)
    requires !t.Raw? && !t'.Raw?
    requires IsPlain(namespace) && IsPlain(sourceId) && IsPlain(correlationId)
    requires (filter.Some? ==> IsPlain(filter.value)) && (filter'.Some? ==> IsPlain(filter'.value))
    requires namespace'.Some? ==> IsPlain(namespace'.value)
    requires correlationId'.Some? ==> IsPlain(correlationId'.value)
    ensures var name := Split(GetTopicName(version, namespace, t, filter, sourceId, Some(correlationId)));
            var pattern := Split(GetTopicFilter(version', namespace', t', filter', correlationId'));
            (LevelsMatch(name, pattern) || Overmatches(name, pattern)) <==>
            && version == version' && t == t'
            && (if Given(filter) then filter' == filter else !Given(filter'))
            && AgreesIfGiven(namespace, namespace')
            && (!IsOneWay(t) ==> AgreesIfGiven(correlationId, correlationId'))
  {
    hide Split, EventLevel, GetTopicName, GetTopicFilter, Decimal, Agree;
    TopicNameLevels(version, namespace, t, filter, sourceId, Some(correlationId));
    TopicFilterLevels(version', namespace', t', filter', correlationId');
    DecimalIsLevel(version');
    if Decimal(version) == Decimal(version') {
      DecimalInjective(version, version');
    }
    EventLevelInjective(t, filter, t', filter');
    EventLevelIsNoWildcard(t', filter');
    ComponentAgrees(namespace, namespace');
    ComponentAgrees(correlationId, correlationId');
    var name := Split(GetTopicName(version, namespace, t, filter, sourceId, Some(correlationId)));
    var pattern := Split(GetTopicFilter(version', namespace', t', filter', correlationId'));
    assert pattern[|pattern| - 1] != "#";
    if |name| == |pattern| {
      AgreeByLevel(name, pattern);
    }
  }

  // ---------------------------------------------------------------- validity

  /** The number of UTF-16 code units of a string, which is its JavaScript length. */
  function CodeUnits(s: string): nat {
    if s == "" then 0 else CodeUnits(s[1..]) + if s[0] as int >= 0x1_0000 then 2 else 1
  }

  /** The byte count the code computes: it counts four bytes for either half of a surrogate pair. */
  function Utf8BytesCount(s: string): nat {
    if s == "" then 0
    else
      var code := s[0] as int;
      Utf8BytesCount(s[1..]) +
      if code <= 0x7f then 1 else if code <= 0x7ff then 2 else if code >= 0x1_0000 then 8 else 3
  }

  method GetUtf8BytesCount(s: string) returns (count: nat)
    ensures count == Utf8BytesCount(s)
    ensures CodeUnits(s) <= count <= 4 * CodeUnits(s)
  {
    count := 0;
    for i := 0 to |s|
      invariant count + Utf8BytesCount(s[i..]) == Utf8BytesCount(s)
    {
      var code := s[i] as int;
      assert s[i..][1..] == s[i + 1..];
      if code <= 0x7f {
        count := count + 1;
      } else if code <= 0x7ff {
        count := count + 2;
      } else if code >= 0x1_0000 {
        count := count + 8;
      } else {
        count := count + 3;
      }
    }
    CountBounds(s);
  }

  /** Short topics need no count: a code unit takes at most four bytes. */
  lemma {:induction false} CountBounds(s: string)
    ensures CodeUnits(s) <= Utf8BytesCount(s) <= 4 * CodeUnits(s)
  {
    if s != "" {
      CountBounds(s[1..]);
    }
  }

  /** The length test that saves counting does not change which topics are valid. */
  lemma LengthTestIsSafe(topic: string, forSubscription: bool)
    ensures IsValidTopic(topic, forSubscription) <==>
            && topic != "" && Utf8BytesCount(topic) <= 65535 && '\0' !in topic
            && (forSubscription || ('+' !in topic && '#' !in topic))
  {
    CountBounds(topic);
  }

  predicate IsValidTopic(topic: string, forSubscription: bool) {
    && topic != ""
    && !(CodeUnits(topic) * 4 > 65535 && Utf8BytesCount(topic) > 65535)
    && '\0' !in topic
    && (forSubscription || ('+' !in topic && '#' !in topic))
  }
}
