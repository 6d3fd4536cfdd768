/** The property-carrying logger of FixedPropertiesLogger.cs.  A logger
    holds a map of fixed key/value properties that it appends to every line
    it forwards to the inner logger.  Deriving or extending a logger builds
    a new map and swaps it in, so no map is ever changed after it is shared.

    The property dictionary is an association list in enumeration order: a
    .NET Dictionary from which nothing is removed enumerates in insertion
    order, and overwriting a key keeps its slot.  `string.Format`, the
    formatter of foreign states and Exception.ToString are outside the
    model: the first two are parameters, and an exception prints as its
    message. */
module FixedLogging {
  import opened Common

  datatype LogLevel = Trace | Debug | Information | Warning | Error | Critical | NoLevel

  datatype Property = Property(key: string, value: Option<string>)

  type Properties = seq<Property>

  function KeysOf(props: Properties): (keys: seq<string>)
    ensures |keys| == |props|
    ensures forall i :: 0 <= i < |props| ==> keys[i] == props[i].key
  {
    if props == [] then [] else [props[0].key] + KeysOf(props[1..])
  }

  ghost predicate DistinctKeys(props: Properties)
  {
    forall a, b :: 0 <= a < b < |props| ==> props[a].key != props[b].key
  }

  /** The dictionary the list stands for (the first entry for a key wins,
      as a lookup would find it). */
  ghost function AsMap(props: Properties): map<string, Option<string>>
  {
    if props == [] then map[] else AsMap(props[1..])[props[0].key := props[0].value]
  }

  lemma {:induction false} AsMapDomain(props: Properties)
    ensures forall k :: k in AsMap(props) <==> exists i :: 0 <= i < |props| && props[i].key == k
    decreases |props|
  {
    if props != [] {
      AsMapDomain(props[1..]);
      forall k | k in AsMap(props)
        ensures exists i :: 0 <= i < |props| && props[i].key == k
      {
        if k != props[0].key {
          assert k in AsMap(props[1..]);
          var i :| 0 <= i < |props[1..]| && props[1..][i].key == k;
          assert props[i + 1].key == k;
        }
      }
      forall k | exists i :: 0 <= i < |props| && props[i].key == k
        ensures k in AsMap(props)
      {
        var i :| 0 <= i < |props| && props[i].key == k;
        if i > 0 {
          assert props[1..][i - 1].key == k;
        }
      }
    }
  }

  /** `dictionary[key] = value`: an existing key keeps its slot and gets
      the new value, a new key goes to the end. */
  function SetProperty(props: Properties, key: string, value: Option<string>): (r: Properties)
    ensures KeysOf(props) <= KeysOf(r)
    ensures |r| <= |props| + 1
  {
    if props == [] then [Property(key, value)]
    else if props[0].key == key then
      var r := [Property(key, value)] + props[1..];
      assert KeysOf(r) == [key] + KeysOf(props[1..]);
      r
    else
      var rest := SetProperty(props[1..], key, value);
      assert KeysOf([props[0]] + rest) == [props[0].key] + KeysOf(rest);
      [props[0]] + rest
  }

  lemma {:induction false} SetPropertyMap(props: Properties, key: string, value: Option<string>)
    ensures AsMap(SetProperty(props, key, value)) == AsMap(props)[key := value]
    decreases |props|
  {
    if props != [] {
      var r := SetProperty(props, key, value);
      var m := AsMap(props[1..]);
      if props[0].key != key {
        SetPropertyMap(props[1..], key, value);
        assert r[1..] == SetProperty(props[1..], key, value);
        assert AsMap(r) == m[key := value][props[0].key := props[0].value];
        assert m[key := value][props[0].key := props[0].value] == m[props[0].key := props[0].value][key := value];
      } else {
        assert r[1..] == props[1..];
        assert AsMap(r) == m[key := value];
        assert m[key := value] == m[key := props[0].value][key := value];
      }
    }
  }

  lemma {:induction false} SetPropertyDistinct(props: Properties, key: string, value: Option<string>)
    requires DistinctKeys(props)
    ensures DistinctKeys(SetProperty(props, key, value))
    decreases |props|
  {
    if props != [] {
      var r := SetProperty(props, key, value);
      if props[0].key == key {
        assert forall i :: 0 <= i < |r| ==> r[i].key == props[i].key;
      } else {
        var rest := SetProperty(props[1..], key, value);
        assert r == [props[0]] + rest;
        SetPropertyDistinct(props[1..], key, value);
        SetPropertyMap(props[1..], key, value);
        AsMapDomain(rest);
        AsMapDomain(props[1..]);
        assert props[0].key !in AsMap(props[1..]);
        forall a, b | 0 <= a < b < |r|
          ensures r[a].key != r[b].key
        {
          if a == 0 {
            assert r[b] == rest[b - 1];
            assert rest[b - 1].key in AsMap(rest);
          } else {
            assert r[a] == rest[a - 1] && r[b] == rest[b - 1];
          }
        }
      }
    }
  }

  /** The pairs written over `props`, first to last. */
  function Merge(props: Properties, pairs: seq<Property>): Properties
  {
    if pairs == [] then props
    else
      var last := pairs[|pairs| - 1];
      SetProperty(Merge(props, pairs[..|pairs| - 1]), last.key, last.value)
  }

  /** In the merged dictionary a key written by the pairs holds the value
      of the last pair that writes it... */
  lemma {:induction false} MergeLastWins(props: Properties, pairs: seq<Property>, j: nat)
    requires j < |pairs|
    requires forall j' :: j < j' < |pairs| ==> pairs[j'].key != pairs[j].key
    ensures pairs[j].key in AsMap(Merge(props, pairs))
    ensures AsMap(Merge(props, pairs))[pairs[j].key] == pairs[j].value
    decreases |pairs|
  {
    var init := pairs[..|pairs| - 1];
    var last := pairs[|pairs| - 1];
    SetPropertyMap(Merge(props, init), last.key, last.value);
    if j < |pairs| - 1 {
      assert init[j] == pairs[j];
      assert forall j' :: j < j' < |init| ==> init[j'].key != init[j].key by {
        forall j' | j < j' < |init| ensures init[j'].key != init[j].key { assert init[j'] == pairs[j']; }
      }
      MergeLastWins(props, init, j);
    }
  }

  /** ... and any other key is as it was. */
  lemma {:induction false} MergeKeepsOthers(props: Properties, pairs: seq<Property>, k: string)
    requires forall j :: 0 <= j < |pairs| ==> pairs[j].key != k
    ensures k in AsMap(Merge(props, pairs)) <==> k in AsMap(props)
    ensures k in AsMap(props) ==> AsMap(Merge(props, pairs))[k] == AsMap(props)[k]
    decreases |pairs|
  {
    if pairs != [] {
      var init := pairs[..|pairs| - 1];
      var last := pairs[|pairs| - 1];
      SetPropertyMap(Merge(props, init), last.key, last.value);
      assert forall j :: 0 <= j < |init| ==> init[j].key != k by {
        forall j | 0 <= j < |init| ensures init[j].key != k { assert init[j] == pairs[j]; }
      }
      MergeKeepsOthers(props, init, k);
    }
  }

  /** Merging keeps the old keys, in their order, at the front and keeps
      keys distinct. */
  lemma {:induction false} MergeKeepsKeys(props: Properties, pairs: seq<Property>)
    ensures KeysOf(props) <= KeysOf(Merge(props, pairs))
    ensures DistinctKeys(props) ==> DistinctKeys(Merge(props, pairs))
    decreases |pairs|
  {
    if pairs != [] {
      var init := pairs[..|pairs| - 1];
      var last := pairs[|pairs| - 1];
      MergeKeepsKeys(props, init);
      if DistinctKeys(props) {
        SetPropertyDistinct(Merge(props, init), last.key, last.value);
      }
    }
  }

  /** Deriving twice is deriving once with both lists of pairs. */
  lemma {:induction false} MergeTwice(props: Properties, first: seq<Property>, second: seq<Property>)
    ensures Merge(Merge(props, first), second) == Merge(props, first + second)
    decreases |second|
  {
    if second == [] {
      assert first + second == first;
    } else {
      var init := second[..|second| - 1];
      var last := second[|second| - 1];
      MergeTwice(props, first, init);
      assert Merge(Merge(props, first), second) == SetProperty(Merge(Merge(props, first), init), last.key, last.value);
      assert (first + second)[..|first + second| - 1] == first + init;
      assert (first + second)[|first + second| - 1] == last;
      assert Merge(props, first + second) == SetProperty(Merge(props, first + init), last.key, last.value);
    }
  }

  // ---------------------------------------------------------------------
  // Text

  /** String interpolation prints null as nothing. */
  function Render(s: Option<string>): string
  {
    if s.Some? then s.value else ""
  }

  function ExceptionText(e: Option<Exception>): string
  {
    if e.Some? then e.value.message else ""
  }

  function DigitChar(d: nat): char
    requires d < 10
  {
    ('0' as int + d) as char
  }

  function NatToString(n: nat): (s: string)
    ensures |s| >= 1
    ensures forall k :: 0 <= k < |s| ==> '0' <= s[k] <= '9'
  {
    if n < 10 then [DigitChar(n)] else NatToString(n / 10) + [DigitChar(n % 10)]
  }

  function IntToString(i: int): string
  {
    if i < 0 then "-" + NatToString(-i) else NatToString(i)
  }

  function DigitsValue(s: string): int
  {
    if s == [] then 0 else 10 * DigitsValue(s[..|s| - 1]) + (s[|s| - 1] as int - '0' as int)
  }

  /** The line number printed is the line number. */
  lemma {:induction false} NatToStringRoundTrip(n: nat)
    ensures DigitsValue(NatToString(n)) == n
    decreases n
  {
    var s := NatToString(n);
    if n < 10 {
      assert s[..|s| - 1] == [];
    } else {
      NatToStringRoundTrip(n / 10);
      assert s[..|s| - 1] == NatToString(n / 10);
      assert s[|s| - 1] as int - '0' as int == n % 10;
    }
  }

  function PropertyText(p: Property): string
  {
    p.key + "=" + Render(p.value)
  }

  /** `string.Join(", ", properties.Select(kv => $"{kv.Key}={kv.Value}"))`. */
  function PropertiesText(props: Properties): (s: string)
    ensures props == [] ==> s == ""
    ensures props != [] ==> StartsWith(s, PropertyText(props[0]))
  {
    if props == [] then ""
    else if |props| == 1 then PropertyText(props[0])
    else PropertyText(props[0]) + ", " + PropertiesText(props[1..])
  }

  function PropertiesBlock(props: Properties): string
  {
    "[" + PropertiesText(props) + "]"
  }

  /** The message handed from the typed entry points to the inner log
      call. */
  datatype LoggerMessage = LoggerMessage(
    message: Option<string>,
    args: Option<seq<Option<string>>>,
    memberName: string,
    sourceFilePath: string,
    sourceLineNumber: int)

  /** The configuration of the logger factory that matters here. */
  datatype LoggerConfig = LoggerConfig(disableSourceLine: bool)

  /** The private Log: the call site is recorded unless the configuration
      hides it, in which case member and file are empty and the line is
      0. */
  function Stamp(config: LoggerConfig, message: Option<string>, args: Option<seq<Option<string>>>,
                 memberName: string, sourceFilePath: string, sourceLineNumber: int): (m: LoggerMessage)
    ensures m.message == message && m.args == args
    ensures config.disableSourceLine ==> m.memberName == "" && m.sourceFilePath == "" && m.sourceLineNumber == 0
    ensures !config.disableSourceLine ==>
      m.memberName == memberName && m.sourceFilePath == sourceFilePath && m.sourceLineNumber == sourceLineNumber
  {
    if config.disableSourceLine then LoggerMessage(message, args, "", "", 0)
    else LoggerMessage(message, args, memberName, sourceFilePath, sourceLineNumber)
  }

  /** Whether `string.Format` is applied: a message, and arguments whose
      first element is not null. */
  predicate ShouldFormat(m: LoggerMessage)
  {
    m.message.Some? && m.args.Some? && |m.args.value| > 0 && m.args.value[0].Some?
  }

  /** The message text: formatted when ShouldFormat holds, verbatim (null
      included) otherwise. */
  function FormattedMessage(m: LoggerMessage, format: (string, seq<Option<string>>) -> string): (r: Option<string>)
    ensures ShouldFormat(m) ==> r == Some(format(m.message.value, m.args.value))
    ensures !ShouldFormat(m) ==> r == m.message
  {
    if ShouldFormat(m) then Some(format(m.message.value, m.args.value)) else m.message
  }

  /** The line forwarded for a LoggerMessage:
      "{message} {exception} {file}:{line} [k=v, ...]". */
  function MessageLine(m: LoggerMessage, exception: Option<Exception>, props: Properties,
                       format: (string, seq<Option<string>>) -> string): (line: string)
    ensures StartsWith(line, Render(FormattedMessage(m, format)) + " " + ExceptionText(exception) + " " + m.sourceFilePath + ":")
    ensures |line| >= |PropertiesBlock(props)| && line[|line| - |PropertiesBlock(props)|..] == PropertiesBlock(props)
  {
    var head := Render(FormattedMessage(m, format)) + " " + ExceptionText(exception) + " " + m.sourceFilePath + ":";
    var tail := IntToString(m.sourceLineNumber) + " " + PropertiesBlock(props);
    assert head + tail == Render(FormattedMessage(m, format)) + " " + ExceptionText(exception) + " "
      + m.sourceFilePath + ":" + IntToString(m.sourceLineNumber) + " " + PropertiesBlock(props);
    assert (head + tail)[..|head|] == head;
    head + tail
  }

  /** The line forwarded for any other state: "[k=v, ...] {formatted}". */
  function StateLine(props: Properties, formatted: string): (line: string)
    ensures StartsWith(line, PropertiesBlock(props) + " ")
    ensures line[|PropertiesBlock(props)| + 1..] == formatted
  {
    PropertiesBlock(props) + " " + formatted
  }

  /** With the source line disabled, the forwarded text does not depend on
      the call site. */
  lemma SourceLineHidden(config: LoggerConfig, message: Option<string>, args: Option<seq<Option<string>>>,
                         exception: Option<Exception>, props: Properties, format: (string, seq<Option<string>>) -> string,
                         member1: string, file1: string, line1: int, member2: string, file2: string, line2: int)
    requires config.disableSourceLine
    ensures MessageLine(Stamp(config, message, args, member1, file1, line1), exception, props, format)
         == MessageLine(Stamp(config, message, args, member2, file2, line2), exception, props, format)
  {
  }

  /** Without a non-null first argument the formatter is never consulted. */
  lemma VerbatimWithoutArguments(m: LoggerMessage, f: (string, seq<Option<string>>) -> string, g: (string, seq<Option<string>>) -> string)
    requires m.args.None? || m.args.value == [] || m.args.value[0].None?
    ensures FormattedMessage(m, f) == FormattedMessage(m, g) == m.message
  {
  }

  // ---------------------------------------------------------------------
  // Loggers

  /** What the state argument of Log<TState> is: a LoggerMessage, or some
      other state already run through its formatter. */
  datatype LogState = Message(m: LoggerMessage) | Other(formatted: string)

  datatype Forwarded = Forwarded(level: LogLevel, text: string, exception: Option<Exception>)

  /** The inner logger: which levels it has enabled and the lines it has
      received. */
  class InnerLogger {
    const enabled: set<LogLevel>
    var received: seq<Forwarded>

    constructor (enabled: set<LogLevel>)
      ensures this.enabled == enabled && received == []
    {
      this.enabled := enabled;
      received := [];
    }
  }

  class FixedPropertiesLogger {
    const logger: InnerLogger
    const factory: LoggerConfig
    var fixedProperties: Properties

    /** A root logger has no fixed properties. */
    constructor Root(logger: InnerLogger, factory: LoggerConfig)
      ensures this.logger == logger && this.factory == factory
      ensures fixedProperties == []
    {
      this.logger := logger;
      this.factory := factory;
      fixedProperties := [];
    }

    /** A derived logger shares the parent's inner logger and factory; its
        properties are a copy of the parent's with the pairs written over
        it. */
    constructor Derived(fixedPropertiesLogger: FixedPropertiesLogger, fixedProperties: seq<Property>)
      ensures logger == fixedPropertiesLogger.logger && factory == fixedPropertiesLogger.factory
      ensures this.fixedProperties == Merge(fixedPropertiesLogger.fixedProperties, fixedProperties)
    {
      logger := fixedPropertiesLogger.logger;
      factory := fixedPropertiesLogger.factory;
      var newProperties := fixedPropertiesLogger.fixedProperties;
      var i := 0;
      while i < |fixedProperties|
        invariant 0 <= i <= |fixedProperties|
        invariant newProperties == Merge(fixedPropertiesLogger.fixedProperties, fixedProperties[..i])
      {
        var property := fixedProperties[i];
        assert fixedProperties[..i + 1][..i] == fixedProperties[..i];
        newProperties := SetProperty(newProperties, property.key, property.value);
        i := i + 1;
      }
      assert fixedProperties[..i] == fixedProperties;
      this.fixedProperties := newProperties;
    }

    /** Writes the pairs over a copy of the properties and swaps the copy
        in. */
    method AddFixedProperties(properties: seq<Property>)
      modifies this
      ensures fixedProperties == Merge(old(fixedProperties), properties)
    {
      var newProperties := fixedProperties;
      var i := 0;
      while i < |properties|
        invariant 0 <= i <= |properties|
        invariant newProperties == Merge(fixedProperties, properties[..i])
      {
        var property := properties[i];
        assert properties[..i + 1][..i] == properties[..i];
        newProperties := SetProperty(newProperties, property.key, property.value);
        i := i + 1;
      }
      assert properties[..i] == properties;
      fixedProperties := newProperties;
    }

    /** A new logger with the pairs added; this one is unchanged. */
    method WithFixedProperties(properties: seq<Property>) returns (l: FixedPropertiesLogger)
      ensures fresh(l)
      ensures l.logger == logger && l.factory == factory
      ensures l.fixedProperties == Merge(fixedProperties, properties)
    {
      l := new FixedPropertiesLogger.Derived(this, properties);
    }

    /** Asks the wrapped logger whether the level is enabled. */
    predicate IsEnabled(level: LogLevel)
    {
      level in logger.enabled
    }

    /** Log<TState>: nothing when the level is disabled; otherwise one line
        with the fixed properties goes to the inner logger. */
    method LogWithState(level: LogLevel, state: LogState, exception: Option<Exception>,
                        format: (string, seq<Option<string>>) -> string)
      modifies logger
      ensures !IsEnabled(level) ==> logger.received == old(logger.received)
      ensures IsEnabled(level) && state.Message? ==>
        logger.received == old(logger.received) + [Forwarded(level, MessageLine(state.m, exception, fixedProperties, format), exception)]
      ensures IsEnabled(level) && state.Other? ==>
        logger.received == old(logger.received) + [Forwarded(level, StateLine(fixedProperties, state.formatted), exception)]
    {
      if !IsEnabled(level) {
        return;
      }
      var properties := fixedProperties;
      match state {
        case Message(message) =>
          var fixedState := MessageLine(message, exception, properties, format);
          logger.received := logger.received + [Forwarded(level, fixedState, exception)];
        case Other(formatted) =>
          var fixedState := StateLine(properties, formatted);
          logger.received := logger.received + [Forwarded(level, fixedState, exception)];
      }
    }

    /** The private Log behind Debug, Info, Warning and Error: stamp the
        call site (unless disabled) and log the message. */
    method Log(level: LogLevel, message: Option<string>, args: Option<seq<Option<string>>>, exception: Option<Exception>,
               memberName: string, sourceFilePath: string, sourceLineNumber: int,
               format: (string, seq<Option<string>>) -> string)
      modifies logger
      ensures !IsEnabled(level) ==> logger.received == old(logger.received)
      ensures IsEnabled(level) ==>
        logger.received == old(logger.received)
          + [Forwarded(level, MessageLine(Stamp(factory, message, args, memberName, sourceFilePath, sourceLineNumber),
                                          exception, fixedProperties, format), exception)]
    {
      var member, file, line := memberName, sourceFilePath, sourceLineNumber;
      if factory.disableSourceLine {
        member := "";
        file := "";
        line := 0;
      }
      var newMessage := LoggerMessage(message, args, member, file, line);
      LogWithState(level, Message(newMessage), exception, format);
    }
  }

  /** Extending a logger after deriving a child leaves the child's
      properties as they were. */
  method ExtendingParentLeavesChild(parent: FixedPropertiesLogger, childPairs: seq<Property>, laterPairs: seq<Property>)
      returns (child: FixedPropertiesLogger)
    modifies parent
    ensures child.fixedProperties == Merge(old(parent.fixedProperties), childPairs)
    ensures parent.fixedProperties == Merge(old(parent.fixedProperties), laterPairs)
  {
    child := parent.WithFixedProperties(childPairs);
    parent.AddFixedProperties(laterPairs);
  }
}
