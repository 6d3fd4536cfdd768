/** Configuration checks and implementation selection of
    ServiceRegistryFactory.cs.  Assembly scanning is replaced by an explicit
    list of candidate types, and the scheme, which the configuration type
    does not declare, is a parameter. */
module ServiceRegistryFactory {
  import opened Common
  import opened RegistryTypes
  import TypeExtension

  /** Do prefixes a and b (at distinct indices) overlap, in either
      direction? */
  predicate PairConflict(p: seq<string>, a: nat, b: nat)
    requires a < |p| && b < |p|
  {
    a != b && (StartsWith(p[b], p[a]) || StartsWith(p[a], p[b]))
  }

  /** The nested loops of HasConflictingPrefixes, resumed at row i, column
      j. */
  function ConflictFrom(p: seq<string>, i: nat, j: nat): bool
    requires i <= |p| && j <= |p|
    decreases |p| - i, |p| - j
  {
    if i == |p| then false
    else if j == |p| then ConflictFrom(p, i + 1, 0)
    else if PairConflict(p, i, j) then true
    else ConflictFrom(p, i, j + 1)
  }

  /** The specification: some prefix starts with another one at a
      different index. */
  ghost predicate Conflicting(p: seq<string>)
  {
    exists a, b :: 0 <= a < |p| && 0 <= b < |p| && a != b && StartsWith(p[b], p[a])
  }

  /** The pairs at or after (i, j) in the loops' order. */
  ghost predicate ConflictAtOrAfter(p: seq<string>, i: nat, j: nat)
  {
    exists a, b :: 0 <= a < |p| && 0 <= b < |p| && (a > i || (a == i && b >= j)) && PairConflict(p, a, b)
  }

  lemma {:induction false} ConflictFromMeaning(p: seq<string>, i: nat, j: nat)
    requires i <= |p| && j <= |p|
    ensures ConflictFrom(p, i, j) <==> ConflictAtOrAfter(p, i, j)
    decreases |p| - i, |p| - j
  {
    if i == |p| {
    } else if j == |p| {
      ConflictFromMeaning(p, i + 1, 0);
      if ConflictAtOrAfter(p, i, j) {
        var a, b :| 0 <= a < |p| && 0 <= b < |p| && (a > i || (a == i && b >= j)) && PairConflict(p, a, b);
        assert a > i;
      }
    } else if PairConflict(p, i, j) {
    } else {
      ConflictFromMeaning(p, i, j + 1);
      if ConflictAtOrAfter(p, i, j) {
        var a, b :| 0 <= a < |p| && 0 <= b < |p| && (a > i || (a == i && b >= j)) && PairConflict(p, a, b);
        assert a > i || (a == i && b >= j + 1);
      }
    }
  }

  /** HasConflictingPrefixes(config): false for a null or empty prefix
      list, otherwise whether two prefixes at distinct indices overlap. */
  function HasConflictingPrefixes(config: RegistryConfig): (r: bool)
    ensures r <==> config.prefixs.Some? && Conflicting(config.prefixs.value)
  {
    if TypeExtension.IsNullOrEmptyArray(config.prefixs) then false
    else
      var p := config.prefixs.value;
      ConflictFromMeaning(p, 0, 0);
      assert ConflictAtOrAfter(p, 0, 0) ==> Conflicting(p) by {
        if ConflictAtOrAfter(p, 0, 0) {
          var a, b :| 0 <= a < |p| && 0 <= b < |p| && PairConflict(p, a, b);
          if !StartsWith(p[b], p[a]) {
            assert StartsWith(p[a], p[b]) && b != a;
          }
        }
      }
      assert Conflicting(p) ==> ConflictAtOrAfter(p, 0, 0) by {
        if Conflicting(p) {
          var a, b :| 0 <= a < |p| && 0 <= b < |p| && a != b && StartsWith(p[b], p[a]);
          assert PairConflict(p, a, b);
        }
      }
      ConflictFrom(p, 0, 0)
  }

  /** A repeated prefix is a conflict; a single prefix is not. */
  lemma ConflictExamples(p: string, q: string)
    ensures HasConflictingPrefixes(RegistryConfig(None, false, Some([p, p])))
    ensures !HasConflictingPrefixes(RegistryConfig(None, false, Some([p])))
    ensures !StartsWith(p, q) && !StartsWith(q, p) ==> !HasConflictingPrefixes(RegistryConfig(None, false, Some([p, q])))
  {
    var two := [p, p];
    assert two[0] == p && two[1] == p && StartsWith(two[1], two[0]);
  }

  /** CheckConfig(config): the first failing check raises, in this order:
      null configuration, null connection string, null or empty prefix
      list, conflicting prefixes. */
  function CheckConfig(config: Option<RegistryConfig>): (r: Outcome<()>)
    ensures r.Ok? <==>
      && config.Some? && config.value.connectionString.Some?
      && config.value.prefixs.Some? && |config.value.prefixs.value| > 0
      && !Conflicting(config.value.prefixs.value)
    ensures r.Raise? ==> r.error.kind == General
    ensures config.None? ==> r == Raise(Exception(General, "RegistryConfig is null"))
    ensures config.Some? && config.value.connectionString.None? ==>
      r == Raise(Exception(General, "RegistryConfig.ConnectionString is null"))
    ensures config.Some? && config.value.connectionString.Some? && TypeExtension.IsNullOrEmptyArray(config.value.prefixs) ==>
      r == Raise(Exception(General, "RegistryConfig.ListenPrefixs is null"))
  {
    if config.None? then Raise(Exception(General, "RegistryConfig is null"))
    else if config.value.connectionString.None? then Raise(Exception(General, "RegistryConfig.ConnectionString is null"))
    else if TypeExtension.IsNullOrEmptyArray(config.value.prefixs) then Raise(Exception(General, "RegistryConfig.ListenPrefixs is null"))
    else if HasConflictingPrefixes(config.value) then Raise(Exception(General, "RegistryConfig.ListenPrefixs has conflicting prefixes"))
    else Ok(())
  }

  /** Ordinal case-insensitive comparison, with case folding limited to
      the ASCII letters. */
  function AsciiUpper(c: char): char
  {
    if 'a' <= c <= 'z' then (c as int - 32) as char else c
  }

  predicate EqualsIgnoreCase(a: string, b: string)
  {
    |a| == |b| && forall k :: 0 <= k < |a| ==> AsciiUpper(a[k]) == AsciiUpper(b[k])
  }

  /** A type in the scanned assembly. */
  datatype RegistryType = RegistryType(
    name: string,
    implementsRegistry: bool,
    isInterface: bool,
    isAbstract: bool,
    schemeAttribute: Option<string>,
    hasConfigConstructor: bool)

  /** HasSchemeAttribute(type, scheme): a [Scheme] attribute whose value
      equals the scheme ignoring case.  A null scheme equals nothing. */
  predicate HasSchemeAttribute(t: RegistryType, scheme: Option<string>)
  {
    t.schemeAttribute.Some? && scheme.Some? && EqualsIgnoreCase(t.schemeAttribute.value, scheme.value)
  }

  /** A concrete registry implementation whose name or [Scheme] value is
      the configured scheme. */
  predicate Candidate(t: RegistryType, scheme: Option<string>)
  {
    && t.implementsRegistry && !t.isInterface && !t.isAbstract
    && ((scheme.Some? && EqualsIgnoreCase(t.name, scheme.value)) || HasSchemeAttribute(t, scheme))
  }

  /** The candidates among the scanned types, in scan order. */
  function MatchingTypes(types: seq<RegistryType>, scheme: Option<string>): (m: seq<RegistryType>)
    ensures |m| <= |types|
    ensures forall t :: t in m <==> t in types && Candidate(t, scheme)
  {
    if types == [] then []
    else (if Candidate(types[0], scheme) then [types[0]] else []) + MatchingTypes(types[1..], scheme)
  }

  /** Two candidate entries in the scan give at least two matches. */
  lemma {:induction false} TwoCandidatesMatchTwice(types: seq<RegistryType>, scheme: Option<string>, a: nat, b: nat)
    requires a < b < |types| && Candidate(types[a], scheme) && Candidate(types[b], scheme)
    ensures |MatchingTypes(types, scheme)| >= 2
    decreases |types|
  {
    if a > 0 {
      TwoCandidatesMatchTwice(types[1..], scheme, a - 1, b - 1);
    } else {
      assert types[b] in types[1..];
    }
  }

  /** CreateRegistry(config): the configuration check, then exactly one
      candidate with a constructor taking the configuration; no candidate
      raises NotImplementedException, several or a missing constructor
      raise InvalidOperationException.  Instantiating the type is not
      modelled: the result is the selected type. */
  function CreateRegistry(config: Option<RegistryConfig>, scheme: Option<string>, types: seq<RegistryType>): (r: Outcome<RegistryType>)
    ensures CheckConfig(config).Raise? ==> r == Raise(CheckConfig(config).error)
    ensures CheckConfig(config).Ok? ==>
      ((forall t :: t in types ==> !Candidate(t, scheme)) <==> r.Raise? && r.error.kind == NotImplemented)
    ensures (exists a, b :: 0 <= a < b < |types| && Candidate(types[a], scheme) && Candidate(types[b], scheme)) ==>
      r.Raise? && (CheckConfig(config).Ok? ==> r.error.kind == InvalidOperation)
    ensures CheckConfig(config).Ok? && |MatchingTypes(types, scheme)| == 1 ==>
      if MatchingTypes(types, scheme)[0].hasConfigConstructor then r == Ok(MatchingTypes(types, scheme)[0])
      else r.Raise? && r.error.kind == InvalidOperation
    ensures r.Ok? ==>
      && CheckConfig(config).Ok? && r.value in types && Candidate(r.value, scheme) && r.value.hasConfigConstructor
      && forall t :: t in types && Candidate(t, scheme) ==> t == r.value
  {
    var check := CheckConfig(config);
    if check.Raise? then Raise(check.error)
    else
      var matchingTypes := MatchingTypes(types, scheme);
      assert |matchingTypes| > 0 ==> matchingTypes[0] in matchingTypes;
      if |matchingTypes| == 0 then
        assert forall t :: t in types ==> !Candidate(t, scheme);
        Raise(Exception(NotImplemented, "No implementation found for scheme"))
      else if |matchingTypes| > 1 then
        Raise(Exception(InvalidOperation, "Multiple implementations found for scheme"))
      else
        var matchingType := matchingTypes[0];
        if !matchingType.hasConfigConstructor then
          Raise(Exception(InvalidOperation, "No constructor found that accepts RegistryConfig"))
        else
          assert forall t :: t in types && Candidate(t, scheme) ==> t in matchingTypes;
          assert !exists a, b :: 0 <= a < b < |types| && Candidate(types[a], scheme) && Candidate(types[b], scheme) by {
            if exists a, b :: 0 <= a < b < |types| && Candidate(types[a], scheme) && Candidate(types[b], scheme) {
              var a, b :| 0 <= a < b < |types| && Candidate(types[a], scheme) && Candidate(types[b], scheme);
              TwoCandidatesMatchTwice(types, scheme, a, b);
            }
          }
          Ok(matchingType)
  }
}
