/**
 * A stand-in for the configuration library the kit builds on
 * (`io.github.jonloucks.variants`): descriptors, ranked sources, the parsers
 * the kit asks for, and the resolver.
 *
 * The library's resolver is not part of this model. A resolver is therefore a
 * parameter, and `Conforms` holds of every resolver that behaves as the kit's
 * tests require: with no value for a descriptor's keys it falls back to the
 * link or the static fallback, and with one agreed value it parses that value
 * and reports what the parser said. `ReferenceResolve` is one resolver that
 * conforms: it tries the keys in order, each in the sources in order, then
 * the link, then the fallback.
 */
module Variants {
  import opened Wrappers
  import opened Text
  import opened Exceptions

  /** What a parser makes of raw text: a value, nothing (`Optional.empty()`), or the exception it threw. */
  datatype Parsed<T> = Value(value: T) | Skip | Reject(error: Exception)

  /**
   * One configuration value: the shape of `Config<T>` (name, description,
   * fallback, keys and the parser `of`) plus the optional link to another
   * descriptor of the same type.
   */
  datatype Descriptor<T> = Descriptor(
    name: Option<string>,
    description: Option<string>,
    fallback: Option<T>,
    keys: seq<string>,
    parser: Text -> Parsed<T>,
    link: Option<Descriptor<T>>)

  /** A source answers a key with raw text, or does not hold it. */
  type Source = map<string, Text>

  /** The result of a lookup: a value, nothing, or the exception a present value raised. */
  datatype Found<T> = Present(value: T) | Absent | Invalid(error: Exception)

  type Resolver<!T> = (Descriptor<T>, seq<Source>) -> Found<T>

  // ---------------------------------------------------------------------------
  // What every conforming resolver does

  /** No source holds any key of the descriptor. */
  ghost predicate NoneHeld<T>(d: Descriptor<T>, sources: seq<Source>) {
    forall i, k :: 0 <= i < |sources| && k in d.keys ==> k !in sources[i]
  }

  /** Some source holds a key of the descriptor, and every source that holds one holds `v`. */
  ghost predicate AllHeldAre<T>(d: Descriptor<T>, sources: seq<Source>, v: Text) {
    && (exists i, k :: 0 <= i < |sources| && k in d.keys && k in sources[i])
    && (forall i, k :: 0 <= i < |sources| && k in d.keys && k in sources[i] ==> sources[i][k] == v)
  }

  /** With no value of its own, a descriptor yields its link's value, its fallback, or nothing. */
  ghost predicate NoValueOutcome<T>(resolve: Resolver<T>, d: Descriptor<T>, sources: seq<Source>) {
    && (d.link.None? && d.fallback.None? ==> resolve(d, sources) == Absent)
    && (d.link.None? && d.fallback.Some? ==> resolve(d, sources) == Present(d.fallback.value))
    && (d.link.Some? && d.fallback.None? ==> resolve(d, sources) == resolve(d.link.value, sources))
  }

  /** With one agreed non-empty value, a descriptor yields what its parser makes of it. */
  ghost predicate AgreedOutcome<T>(resolve: Resolver<T>, d: Descriptor<T>, sources: seq<Source>, v: Text) {
    match d.parser(v)
    case Value(x) => v != [] ==> resolve(d, sources) == Present(x)
    case Reject(e) => v != [] ==> resolve(d, sources) == Invalid(e)
    case Skip => d.link.None? && d.fallback.None? ==> resolve(d, sources) == Absent
  }

  ghost predicate ConformsAt<T>(resolve: Resolver<T>, d: Descriptor<T>, sources: seq<Source>) {
    && (NoneHeld(d, sources) ==> NoValueOutcome(resolve, d, sources))
    && (forall v :: AllHeldAre(d, sources, v) ==> AgreedOutcome(resolve, d, sources, v))
  }

  /** The behaviour of the library's resolver that the kit's tests rely on. */
  ghost predicate Conforms<T(!new)>(resolve: Resolver<T>) {
    forall d: Descriptor<T>, sources: seq<Source> :: ConformsAt(resolve, d, sources)
  }

  /** `findVariance(...).orElseThrow(...)`, as `getVariance` does it: absence becomes an exception naming the descriptor. */
  function Require<T>(d: Descriptor<T>, found: Found<T>): (r: Result<T, Exception>)
    ensures r.Success? <==> found.Present?
    ensures found.Present? ==> r.value == found.value
    ensures found.Absent? ==> r.error.kind == MissingConfig
    ensures found.Invalid? ==> r.error == found.error
  {
    match found
    case Present(x) => Success(x)
    case Invalid(e) => Failure(e)
    case Absent => Failure(Exception(MissingConfig, Ascii(Format(d))))
  }

  /** A descriptor no source sets, with no link, is required successfully exactly when it has a fallback; otherwise the error names it. */
  lemma RequireWithoutValue<T(!new)>(resolve: Resolver<T>, d: Descriptor<T>, sources: seq<Source>)
    requires Conforms(resolve) && NoneHeld(d, sources) && d.link.None?
    ensures Require(d, resolve(d, sources)) ==
      if d.fallback.Some? then Success(d.fallback.value) else Failure(Exception(MissingConfig, Ascii(Format(d))))
  {
    assert ConformsAt(resolve, d, sources);
  }

  /** A value every source agrees on is required successfully when it parses, and fails with the parser's own exception when it does not. */
  lemma RequireAgreedValue<T(!new)>(resolve: Resolver<T>, d: Descriptor<T>, sources: seq<Source>, v: Text)
    requires Conforms(resolve) && AllHeldAre(d, sources, v) && v != []
    ensures d.parser(v).Value? ==> Require(d, resolve(d, sources)) == Success(d.parser(v).value)
    ensures d.parser(v).Reject? ==> Require(d, resolve(d, sources)) == Failure(d.parser(v).error)
  {
    assert ConformsAt(resolve, d, sources);
  }

  /** "<name>" or "<name> : <description>", with "***" for a descriptor without a name. */
  function Format<T>(d: Descriptor<T>): string {
    var name := d.name.GetOr("***");
    if d.description.Some? then name + " : " + d.description.value else name
  }

  // ---------------------------------------------------------------------------
  // The parsers the kit asks the library for

  /** `ofString()`: the raw text itself. */
  function OfString(t: Text): Parsed<Text> {
    Value(t)
  }

  function Lower(b: byte): byte {
    if 65 <= b <= 90 then b + 32 else b
  }

  /** `ofBoolean()`, read as `Boolean.parseBoolean`: true exactly for "true" in any case. */
  function OfBoolean(t: Text): Parsed<bool> {
    Value(|t| == 4 && Lower(t[0]) == 116 && Lower(t[1]) == 114 && Lower(t[2]) == 117 && Lower(t[3]) == 101)
  }

  /** `ofBoolean()` gives true exactly for the four letters of "true", each in either case. */
  lemma OfBooleanCases(t: Text)
    ensures OfBoolean(t) == Value(|t| == 4 && forall i :: 0 <= i < 4 ==> Lower(t[i]) == Ascii("true")[i])
  {
    var w := Ascii("true");
    assert w == [116, 114, 117, 101];
    if |t| == 4 {
      assert (forall i :: 0 <= i < 4 ==> Lower(t[i]) == w[i]) <==>
        Lower(t[0]) == 116 && Lower(t[1]) == 114 && Lower(t[2]) == 117 && Lower(t[3]) == 101;
    }
  }

  /** `ofTrimAndSkipEmpty(parse)`: trims the text; blank text is no value, anything else goes to `parse`. */
  function OfTrimAndSkipEmpty<T>(parse: Text -> Parsed<T>): Text -> Parsed<T> {
    t => if Trim(t) == [] then Skip else parse(Trim(t))
  }

  lemma TrimAndSkipEmptyAt<T>(parse: Text -> Parsed<T>, t: Text)
    ensures OfTrimAndSkipEmpty(parse)(t) == if Trim(t) == [] then Skip else parse(Trim(t))
  {
  }

  /**
   * What `ofTrimAndSkipEmpty` means for a caller: all-blank text is no value;
   * any other text reaches the parser trimmed, with a non-blank first and
   * last character; and blanks around a value never change the verdict.
   */
  lemma TrimAndSkipEmptyIgnoresBlanks<T>(parse: Text -> Parsed<T>, t: Text)
    ensures (forall i :: 0 <= i < |t| ==> IsBlank(t[i])) ==> OfTrimAndSkipEmpty(parse)(t) == Skip
    ensures (exists i :: 0 <= i < |t| && !IsBlank(t[i])) ==>
      var u := Trim(t);
      && OfTrimAndSkipEmpty(parse)(t) == parse(u)
      && u != [] && !IsBlank(u[0]) && !IsBlank(u[|u| - 1])
    ensures OfTrimAndSkipEmpty(parse)(Trim(t)) == OfTrimAndSkipEmpty(parse)(t)
  {
    var u := Trim(t);
    TrimEmptyIffAllBlank(t);
    TrimUnblanked(u);
    TrimAndSkipEmptyAt(parse, t);
    TrimAndSkipEmptyAt(parse, u);
    assert Trim(u) == u;
  }

  /** `ofList(ofString(), ",")`, read as `String.split` on the separator. */
  function OfStringList(sep: byte): Text -> Parsed<seq<Text>> {
    t => Value(JavaSplit(t, sep))
  }

  // ---------------------------------------------------------------------------
  // A reference resolver, and the proof that it conforms

  /** The first source, in rank order, whose non-empty value for `key` the parser does not skip. */
  function ScanSources<T>(parse: Text -> Parsed<T>, key: string, sources: seq<Source>): Parsed<T>
    decreases |sources|
  {
    if sources == [] then Skip
    else
      var here := if key in sources[0] && sources[0][key] != [] then parse(sources[0][key]) else Skip;
      if here.Skip? then ScanSources(parse, key, sources[1..]) else here
  }

  /** The first key, in declared order, that some source answers. */
  function ScanKeys<T>(parse: Text -> Parsed<T>, keys: seq<string>, sources: seq<Source>): Parsed<T>
    decreases |keys|
  {
    if keys == [] then Skip
    else
      var here := ScanSources(parse, keys[0], sources);
      if here.Skip? then ScanKeys(parse, keys[1..], sources) else here
  }

  /** Own keys first; a parse failure ends the lookup; then the link; then the fallback. */
  function ReferenceResolve<T>(d: Descriptor<T>, sources: seq<Source>): Found<T>
    decreases d
  {
    match ScanKeys(d.parser, d.keys, sources)
    case Value(x) => Present(x)
    case Reject(e) => Invalid(e)
    case Skip =>
      var linked := match d.link case Some(l) => ReferenceResolve(l, sources) case None => Absent;
      if !linked.Absent? then linked
      else if d.fallback.Some? then Present(d.fallback.value)
      else Absent
  }

  lemma {:induction false} ScanSourcesAgreed<T>(parse: Text -> Parsed<T>, key: string, sources: seq<Source>, v: Text)
    requires forall i :: 0 <= i < |sources| && key in sources[i] ==> sources[i][key] == v
    ensures ScanSources(parse, key, sources) ==
      if v != [] && exists i :: 0 <= i < |sources| && key in sources[i] then parse(v) else Skip
    decreases |sources|
  {
    if sources != [] {
      var rest := sources[1..];
      assert forall i :: 0 <= i < |rest| ==> rest[i] == sources[i + 1];
      ScanSourcesAgreed(parse, key, rest, v);
      if key !in sources[0] {
        assert (exists i :: 0 <= i < |sources| && key in sources[i]) <==>
               (exists i :: 0 <= i < |rest| && key in rest[i]) by {
          if i :| 0 <= i < |sources| && key in sources[i] {
            assert 0 <= i - 1 < |rest| && key in rest[i - 1];
          }
        }
      }
    }
  }

  lemma {:induction false} ScanKeysAgreed<T>(parse: Text -> Parsed<T>, keys: seq<string>, sources: seq<Source>, v: Text)
    requires forall i, k :: 0 <= i < |sources| && k in keys && k in sources[i] ==> sources[i][k] == v
    ensures ScanKeys(parse, keys, sources) ==
      if v != [] && exists i, k :: 0 <= i < |sources| && k in keys && k in sources[i] then parse(v) else Skip
    decreases |keys|
  {
    if keys != [] {
      var k0, rest := keys[0], keys[1..];
      assert k0 in keys;
      assert forall k :: k in rest ==> k in keys;
      ScanSourcesAgreed(parse, k0, sources, v);
      ScanKeysAgreed(parse, rest, sources, v);
      var heldAll := exists i, k :: 0 <= i < |sources| && k in keys && k in sources[i];
      var held0 := exists i :: 0 <= i < |sources| && k0 in sources[i];
      var heldRest := exists i, k :: 0 <= i < |sources| && k in rest && k in sources[i];
      assert heldAll <==> held0 || heldRest by {
        if i, k :| 0 <= i < |sources| && k in keys && k in sources[i] {
          if k != k0 {
            assert k in rest;
          }
        }
      }
    }
  }

  lemma {:induction false} ScanKeysNoneHeld<T>(parse: Text -> Parsed<T>, keys: seq<string>, sources: seq<Source>)
    requires forall i, k :: 0 <= i < |sources| && k in keys ==> k !in sources[i]
    ensures ScanKeys(parse, keys, sources) == Skip
  {
    ScanKeysAgreed(parse, keys, sources, []);
  }

  /** The reference resolver has every behaviour the tests pin down, so `Conforms` is not vacuous. */
  lemma ReferenceConforms<T(!new)>()
    ensures Conforms<T>(ReferenceResolve)
  {
    forall d: Descriptor<T>, sources: seq<Source>
      ensures ConformsAt(ReferenceResolve, d, sources)
    {
      if NoneHeld(d, sources) {
        ScanKeysNoneHeld(d.parser, d.keys, sources);
      }
      forall v | AllHeldAre(d, sources, v)
        ensures AgreedOutcome(ReferenceResolve, d, sources, v)
      {
        ScanKeysAgreed(d.parser, d.keys, sources, v);
      }
    }
  }
}
