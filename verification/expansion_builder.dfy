/** The query-parameter builder of stream/stream_expansion_builder.go: three
    lists that the Add calls append to in place, and a stub `Build`. */
module ExpansionBuilder {
  import opened GoTypes

  /** The list a call appends to. */
  datatype Field = Expansions | MediaFields | PlaceFields

  /** One Add call: the list it names and the text it appends. */
  datatype Added = Added(field: Field, text: Bytes)

  /** The three slices of a `StreamQueryParamBuilder`, as one value. */
  datatype Params = Params(expansions: seq<Bytes>, mediaFields: seq<Bytes>, placeFields: seq<Bytes>)

  const Empty := Params([], [], [])

  /** What one Add call does: its text goes at the end of its own list
      (stream/stream_expansion_builder.go:35-56). */
  function Apply(p: Params, a: Added): Params {
    match a.field
    case Expansions => p.(expansions := p.expansions + [a.text])
    case MediaFields => p.(mediaFields := p.mediaFields + [a.text])
    case PlaceFields => p.(placeFields := p.placeFields + [a.text])
  }

  /** The lists after a chain of Add calls on a new builder. */
  function Replay(as_: seq<Added>): Params
    decreases |as_|
  {
    if as_ == [] then Empty else Apply(Replay(as_[..|as_| - 1]), as_[|as_| - 1])
  }

  /** The texts of the calls naming list `f`, in call order. */
  function TextsOf(as_: seq<Added>, f: Field): seq<Bytes>
    decreases |as_|
  {
    if as_ == [] then []
    else if as_[0].field == f then [as_[0].text] + TextsOf(as_[1..], f)
    else TextsOf(as_[1..], f)
  }

  lemma {:induction false} TextsOfSnoc(as_: seq<Added>, a: Added, f: Field)
    ensures TextsOf(as_ + [a], f) == TextsOf(as_, f) + (if a.field == f then [a.text] else [])
    decreases |as_|
  {
    if as_ == [] {
      assert [a][1..] == [];
    } else {
      assert (as_ + [a])[1..] == as_[1..] + [a];
      TextsOfSnoc(as_[1..], a, f);
    }
  }

  /** Each list holds exactly the texts of the calls that name it, in the
      order of the calls. */
  lemma {:induction false} ReplayKeepsOrder(as_: seq<Added>)
    ensures Replay(as_) == Params(TextsOf(as_, Expansions), TextsOf(as_, MediaFields), TextsOf(as_, PlaceFields))
    decreases |as_|
  {
    if as_ != [] {
      var init, a := as_[..|as_| - 1], as_[|as_| - 1];
      assert as_ == init + [a];
      ReplayKeepsOrder(init);
      TextsOfSnoc(init, a, Expansions);
      TextsOfSnoc(init, a, MediaFields);
      TextsOfSnoc(init, a, PlaceFields);
    }
  }

  /** Every call adds exactly one entry: the three lists together are as
      long as the chain of calls. */
  lemma {:induction false} OneEntryPerCall(as_: seq<Added>)
    ensures |Replay(as_).expansions| + |Replay(as_).mediaFields| + |Replay(as_).placeFields| == |as_|
    decreases |as_|
  {
    if as_ != [] {
      OneEntryPerCall(as_[..|as_| - 1]);
    }
  }

  /** `StreamQueryParamBuilder` (stream/stream_expansion_builder.go:12-16).
      `calls` is the chain of Add calls made on it so far. */
  class StreamQueryParamBuilder {
    var expansions: seq<Bytes>
    var mediaFields: seq<Bytes>
    var placeFields: seq<Bytes>
    ghost var calls: seq<Added>

    function State(): Params
      reads this
    {
      Params(expansions, mediaFields, placeFields)
    }

    /** The lists are what the calls made so far leave behind. */
    ghost predicate Valid()
      reads this
    {
      State() == Replay(calls)
    }

    /** `NewStreamQueryParamsBuilder` (stream/stream_expansion_builder.go:20-26). */
    constructor NewStreamQueryParamsBuilder()
      ensures Valid() && calls == [] && State() == Empty
    {
      expansions, mediaFields, placeFields := [], [], [];
      calls := [];
    }

    /** `Build` (stream/stream_expansion_builder.go:28-30): a fixed text
        whatever the lists hold. */
    function Build(): (r: Bytes)
      ensures r == "?expansions=lol"
    {
      "?expansions=lol"
    }

    /** `AddExpansion` (stream/stream_expansion_builder.go:35-38). */
    method AddExpansion(expansion: Bytes) returns (self: StreamQueryParamBuilder)
      requires Valid()
      modifies this
      ensures Valid() && calls == old(calls) + [Added(Expansions, expansion)] && self == this
      ensures expansions == old(expansions) + [expansion]
      ensures mediaFields == old(mediaFields) && placeFields == old(placeFields)
    {
      expansions := expansions + [expansion];
      calls := calls + [Added(Expansions, expansion)];
      self := this;
    }

    /** `AddMediaField` (stream/stream_expansion_builder.go:44-47). */
    method AddMediaField(mediaField: Bytes) returns (self: StreamQueryParamBuilder)
      requires Valid()
      modifies this
      ensures Valid() && calls == old(calls) + [Added(MediaFields, mediaField)] && self == this
      ensures mediaFields == old(mediaFields) + [mediaField]
      ensures expansions == old(expansions) && placeFields == old(placeFields)
    {
      mediaFields := mediaFields + [mediaField];
      calls := calls + [Added(MediaFields, mediaField)];
      self := this;
    }

    /** `AddPlaceField` (stream/stream_expansion_builder.go:53-56). */
    method AddPlaceField(placeField: Bytes) returns (self: StreamQueryParamBuilder)
      requires Valid()
      modifies this
      ensures Valid() && calls == old(calls) + [Added(PlaceFields, placeField)] && self == this
      ensures placeFields == old(placeFields) + [placeField]
      ensures expansions == old(expansions) && mediaFields == old(mediaFields)
    {
      placeFields := placeFields + [placeField];
      calls := calls + [Added(PlaceFields, placeField)];
      self := this;
    }
  }

  /** A chain of two calls to each Add method
      (stream/stream_expansion_builder.go:35-56) leaves each pair of texts
      in its own list, in call order. */
  lemma ChainExample()
    ensures Replay([Added(Expansions, "expansion1"), Added(Expansions, "expansion2"),
                    Added(MediaFields, "mediaField1"), Added(MediaFields, "mediaField2"),
                    Added(PlaceFields, "placeField1"), Added(PlaceFields, "placeField2")])
         == Params(["expansion1", "expansion2"], ["mediaField1", "mediaField2"], ["placeField1", "placeField2"])
  {
    var cs := [Added(Expansions, "expansion1"), Added(Expansions, "expansion2"),
               Added(MediaFields, "mediaField1"), Added(MediaFields, "mediaField2"),
               Added(PlaceFields, "placeField1"), Added(PlaceFields, "placeField2")];
    ReplayKeepsOrder(cs);
  }

  /** Whatever chain of calls a builder has seen, each list holds the texts
      of its own calls, in order. */
  lemma BuilderKeepsOrder(b: StreamQueryParamBuilder)
    requires b.Valid()
    ensures b.expansions == TextsOf(b.calls, Expansions)
    ensures b.mediaFields == TextsOf(b.calls, MediaFields)
    ensures b.placeFields == TextsOf(b.calls, PlaceFields)
  {
    ReplayKeepsOrder(b.calls);
  }
}
