/**
 * `ConfigImpl.java`: the mutable builder behind a configuration descriptor.
 * Every builder method updates one field in place and returns the builder.
 * `AsDescriptor` is the descriptor a builder stands for, as the resolver of
 * module `Variants` reads it, including the builders along its link chain.
 */
module ConfigBuilder {
  import opened Wrappers
  import opened Text
  import opened Variants
  import Exceptions

  /** A builder's parser as the resolver sees it: null is no value. */
  function ParserOf<T>(parser: Text -> Option<T>): Text -> Parsed<T> {
    t => match parser(t) case Some(x) => Value(x) case None => Skip
  }

  class ConfigImpl<T> {
    var name: Option<string>
    var description: Option<string>
    /** The fallback supplier; a supplier that returns null is one that returns `None`. */
    var fallback: Option<() -> Option<T>>
    var keys: seq<string>
    var link: Option<ConfigImpl<T>>
    /** The parser; a parser that returns null is one that returns `None`. */
    const parser: Text -> Option<T>
    /** This builder and the builders along its link chain. */
    ghost var Repr: set<object>

    /** Once a key is added, the descriptor has a name; the link chain is finite and does not come back here. */
    ghost predicate Valid()
      reads this, Repr
      decreases Repr
    {
      && this in Repr
      && (keys != [] ==> name.Some?)
      && (link.Some? ==>
        && link.value in Repr && link.value.Repr <= Repr && this !in link.value.Repr
        && link.value.Valid())
    }

    /** The descriptor this builder stands for. */
    ghost function AsDescriptor(): Descriptor<T>
      requires Valid()
      reads this, Repr
      decreases Repr
    {
      Descriptor(name, description, GetFallback(), keys, ParserOf(parser),
        if link.Some? then Some(link.value.AsDescriptor()) else None)
    }

    constructor (parser: Text -> Option<T>)
      ensures Valid() && Repr == {this}
      ensures this.parser == parser
      ensures name == None && description == None && fallback == None && keys == [] && link == None
      ensures AsDescriptor() == Descriptor(None, None, None, [], ParserOf(parser), None)
    {
      this.parser := parser;
      name := None;
      description := None;
      fallback := None;
      keys := [];
      link := None;
      Repr := {this};
    }

    method Name(name: string) returns (r: ConfigImpl<T>)
      requires Valid()
      modifies this
      ensures r == this && Valid() && Repr == old(Repr)
      ensures this.name == Some(name)
      ensures description == old(description) && fallback == old(fallback)
      ensures keys == old(keys) && link == old(link)
      ensures AsDescriptor() == old(AsDescriptor()).(name := Some(name))
    {
      this.name := Some(name);
      r := this;
    }

    method Description(description: string) returns (r: ConfigImpl<T>)
      requires Valid()
      modifies this
      ensures r == this && Valid() && Repr == old(Repr)
      ensures this.description == Some(description)
      ensures name == old(name) && fallback == old(fallback)
      ensures keys == old(keys) && link == old(link)
      ensures AsDescriptor() == old(AsDescriptor()).(description := Some(description))
    {
      this.description := Some(description);
      r := this;
    }

    method Fallback(fallback: () -> Option<T>) returns (r: ConfigImpl<T>)
      requires Valid()
      modifies this
      ensures r == this && Valid() && Repr == old(Repr)
      ensures this.fallback == Some(fallback)
      ensures name == old(name) && description == old(description)
      ensures keys == old(keys) && link == old(link)
      ensures AsDescriptor() == old(AsDescriptor()).(fallback := fallback())
    {
      this.fallback := Some(fallback);
      r := this;
    }

    /** `keys(String...)`: appends in argument order; the first key names an unnamed descriptor. */
    method Keys(keys: seq<string>) returns (r: ConfigImpl<T>)
      requires Valid()
      modifies this
      ensures r == this && Valid() && Repr == old(Repr)
      ensures this.keys == old(this.keys) + keys
      ensures name == if keys != [] && old(name).None? then Some(keys[0]) else old(name)
      ensures description == old(description) && fallback == old(fallback) && link == old(link)
      ensures AsDescriptor() == old(AsDescriptor()).(keys := this.keys, name := name)
    {
      if |keys| > 0 {
        this.keys := this.keys + keys;
        if name.None? {
          name := Some(keys[0]);
        }
      }
      r := this;
    }

    /**
     * `fallback(Config<T> link)`: the descriptor consulted when this one has
     * no value. The linked builder must not lead back to this one.
     */
    method FallbackTo(link: ConfigImpl<T>) returns (r: ConfigImpl<T>)
      requires Valid() && link.Valid() && this !in link.Repr
      modifies this
      ensures r == this && Valid() && Repr == old(Repr) + link.Repr
      ensures this.link == Some(link)
      ensures name == old(name) && description == old(description)
      ensures fallback == old(fallback) && keys == old(keys)
      ensures AsDescriptor() == old(AsDescriptor()).(link := Some(link.AsDescriptor()))
    {
      this.link := Some(link);
      Repr := Repr + link.Repr;
      r := this;
    }

    /** `getFallback`: empty without a supplier or when the supplier gives null, else the supplier's value. */
    function GetFallback(): (r: Option<T>)
      reads this
      ensures fallback.None? ==> r.None?
      ensures fallback.Some? ==> r == fallback.value()
    {
      if fallback.Some? then fallback.value() else None
    }

    /** `of(text)`: empty exactly when the parser gives null. */
    function Of(text: Text): (r: Option<T>)
      ensures r.None? <==> parser(text).None?
      ensures r.Some? ==> r.value == parser(text).value
    {
      parser(text)
    }

    /** `toString`: the name, or "***" for an unnamed descriptor. */
    function ToString(): (r: string)
      reads this
      ensures name.Some? ==> r == name.value
      ensures name.None? ==> r == "***"
    {
      name.GetOr("***")
    }
  }

  /**
   * `getFallback()` is the static fallback of the builder's descriptor: with
   * no value in any source and no link, every conforming resolver yields the
   * supplier's value, and nothing when there is no supplier or it gives null.
   */
  lemma FallbackResolves<T(!new)>(c: ConfigImpl<T>, resolve: Resolver<T>, sources: seq<Source>)
    requires c.Valid() && c.link.None?
    requires Conforms(resolve) && NoneHeld(c.AsDescriptor(), sources)
    ensures resolve(c.AsDescriptor(), sources) ==
      if c.GetFallback().Some? then Present(c.GetFallback().value) else Absent
  {
    assert ConformsAt(resolve, c.AsDescriptor(), sources);
  }

  /**
   * `of(text)` is the parser of the builder's descriptor: an agreed value it
   * accepts is what every conforming resolver yields, and one it maps to null
   * leaves an unlinked descriptor without fallback absent.
   */
  lemma OfResolves<T(!new)>(c: ConfigImpl<T>, resolve: Resolver<T>, sources: seq<Source>, v: Text)
    requires c.Valid()
    requires Conforms(resolve) && AllHeldAre(c.AsDescriptor(), sources, v) && v != []
    ensures c.Of(v).Some? ==> resolve(c.AsDescriptor(), sources) == Present(c.Of(v).value)
    ensures c.Of(v).None? && c.link.None? && c.GetFallback().None? ==> resolve(c.AsDescriptor(), sources) == Absent
  {
    assert ConformsAt(resolve, c.AsDescriptor(), sources);
  }

  /**
   * `toString()` names the builder's descriptor: it begins the text that
   * `requireConfig` reports for a missing value, and is all of it without a
   * description. A builder with keys never shows "***" unless so named.
   */
  lemma ToStringNamesDescriptor<T>(c: ConfigImpl<T>)
    requires c.Valid()
    ensures c.ToString() <= Format(c.AsDescriptor())
    ensures c.description.None? ==> Format(c.AsDescriptor()) == c.ToString()
    ensures Require(c.AsDescriptor(), Absent) == Failure(Exceptions.Exception(Exceptions.MissingConfig, Ascii(Format(c.AsDescriptor()))))
    ensures c.keys != [] ==> c.ToString() == c.name.value
  {
    var d := c.AsDescriptor();
    if d.description.Some? {
      assert Format(d) == c.ToString() + (" : " + d.description.value);
    }
  }

  /** An explicit name survives any later `keys(...)` call. */
  method ExplicitNameKept<T>(parser: Text -> Option<T>, n: string, ks: seq<string>) returns (c: ConfigImpl<T>)
    ensures c.name == Some(n) && c.keys == ks && c.ToString() == n
  {
    c := new ConfigImpl(parser);
    var _ := c.Name(n);
    var _ := c.Keys(ks);
  }

  /** Without a name, the first key of the first non-empty `keys(...)` call names the descriptor. */
  method FirstKeyNames<T>(parser: Text -> Option<T>, first: seq<string>, more: seq<string>) returns (c: ConfigImpl<T>)
    ensures c.keys == first + more
    ensures c.name == if first != [] then Some(first[0]) else if more != [] then Some(more[0]) else None
  {
    c := new ConfigImpl(parser);
    var _ := c.Keys(first);
    var _ := c.Keys(more);
  }

  /** `keys()` with no arguments changes nothing. */
  method NoKeysNoChange<T>(c: ConfigImpl<T>)
    requires c.Valid()
    modifies c
    ensures c.Valid()
    ensures c.keys == old(c.keys) && c.name == old(c.name)
  {
    var _ := c.Keys([]);
  }
}
