/** The fluent rule builder of rules/rule_builder.go: four lists of strings
    that the Add and Filter calls append to in place, and two stub queries. */
module RuleBuilder {
  import opened GoTypes

  /** The four slices of a `RuleBuilder`, as one value. */
  datatype Lists = Lists(keywords: seq<Bytes>, filterKeywords: seq<Bytes>,
                         exactPhrase: seq<Bytes>, filterExactPhrase: seq<Bytes>)

  /** One builder call, with its argument. */
  datatype Call = KeywordAdded(keyword: Bytes) | KeywordFiltered(keyword: Bytes)
                | PhraseAdded(phrase: Bytes) | PhraseFiltered(phrase: Bytes)

  const Empty := Lists([], [], [], [])

  /** `negate` (rules/rule_builder.go:59-62): a minus sign before the text,
      which the rest of the result gives back unchanged. */
  function Negate(s: Bytes): (r: Bytes)
    ensures |r| == |s| + 1 && r[0] == '-' && r[1..] == s
  {
    "-" + s
  }

  /** What one call does to the lists, as rules/rule_builder.go:39-57 has
      it: filtering an exact phrase files the negated phrase under
      `exactPhrase`, like an added one. */
  function Apply(l: Lists, c: Call): Lists {
    match c
    case KeywordAdded(k) => l.(keywords := l.keywords + [k])
    case KeywordFiltered(k) => l.(filterKeywords := l.filterKeywords + [Negate(k)])
    case PhraseAdded(p) => l.(exactPhrase := l.exactPhrase + [p])
    case PhraseFiltered(p) => l.(exactPhrase := l.exactPhrase + [Negate(p)])
  }

  /** The lists after a chain of calls on a new builder. */
  function Replay(cs: seq<Call>): Lists
    decreases |cs|
  {
    if cs == [] then Empty else Apply(Replay(cs[..|cs| - 1]), cs[|cs| - 1])
  }

  /** The keywords added, in call order. */
  function Added(cs: seq<Call>): seq<Bytes>
    decreases |cs|
  {
    if cs == [] then []
    else match cs[0]
      case KeywordAdded(k) => [k] + Added(cs[1..])
      case _ => Added(cs[1..])
  }

  /** The keywords filtered, each negated, in call order. */
  function Filtered(cs: seq<Call>): seq<Bytes>
    decreases |cs|
  {
    if cs == [] then []
    else match cs[0]
      case KeywordFiltered(k) => [Negate(k)] + Filtered(cs[1..])
      case _ => Filtered(cs[1..])
  }

  /** The phrases of both phrase calls in call order, the filtered ones negated. */
  function Phrases(cs: seq<Call>): seq<Bytes>
    decreases |cs|
  {
    if cs == [] then []
    else match cs[0]
      case PhraseAdded(p) => [p] + Phrases(cs[1..])
      case PhraseFiltered(p) => [Negate(p)] + Phrases(cs[1..])
      case _ => Phrases(cs[1..])
  }

  lemma {:induction false} SplitLast(cs: seq<Call>, c: Call)
    ensures Added(cs + [c]) == Added(cs) + Added([c])
    ensures Filtered(cs + [c]) == Filtered(cs) + Filtered([c])
    ensures Phrases(cs + [c]) == Phrases(cs) + Phrases([c])
    decreases |cs|
  {
    if cs != [] {
      assert (cs + [c])[1..] == cs[1..] + [c];
      SplitLast(cs[1..], c);
    }
  }

  /** Each list holds exactly the arguments of its own calls, in the order
      of the calls, and `filterExactPhrase` stays empty whatever is called. */
  lemma {:induction false} ReplayLists(cs: seq<Call>)
    ensures Replay(cs) == Lists(Added(cs), Filtered(cs), Phrases(cs), [])
    decreases |cs|
  {
    if cs != [] {
      var init, c := cs[..|cs| - 1], cs[|cs| - 1];
      assert cs == init + [c];
      ReplayLists(init);
      SplitLast(init, c);
    }
  }

  /** The filtered phrase goes to `exactPhrase`: filtering "x" on a new
      builder leaves `filterExactPhrase` empty and `exactPhrase` holding "-x". */
  lemma FilterExactPhraseMisfiles()
    ensures Replay([PhraseFiltered("x")]) == Lists([], [], ["-x"], [])
  {
    assert [PhraseFiltered("x")][..0] == [];
    assert Negate("x") == "-x";
  }

  /** One call as the field names suggest it was meant: a filtered phrase
      goes, negated, to `filterExactPhrase`. */
  function ApplyIntended(l: Lists, c: Call): Lists {
    match c
    case PhraseFiltered(p) => l.(filterExactPhrase := l.filterExactPhrase + [Negate(p)])
    case _ => Apply(l, c)
  }

  function ReplayIntended(cs: seq<Call>): Lists
    decreases |cs|
  {
    if cs == [] then Empty else ApplyIntended(ReplayIntended(cs[..|cs| - 1]), cs[|cs| - 1])
  }

  /** The phrases filtered, each negated, in call order. */
  function FilteredPhrases(cs: seq<Call>): seq<Bytes>
    decreases |cs|
  {
    if cs == [] then []
    else match cs[0]
      case PhraseFiltered(p) => [Negate(p)] + FilteredPhrases(cs[1..])
      case _ => FilteredPhrases(cs[1..])
  }

  /** The phrases added, in call order. */
  function AddedPhrases(cs: seq<Call>): seq<Bytes>
    decreases |cs|
  {
    if cs == [] then []
    else match cs[0]
      case PhraseAdded(p) => [p] + AddedPhrases(cs[1..])
      case _ => AddedPhrases(cs[1..])
  }

  lemma {:induction false} SplitLastPhrases(cs: seq<Call>, c: Call)
    ensures AddedPhrases(cs + [c]) == AddedPhrases(cs) + AddedPhrases([c])
    ensures FilteredPhrases(cs + [c]) == FilteredPhrases(cs) + FilteredPhrases([c])
    decreases |cs|
  {
    if cs != [] {
      assert (cs + [c])[1..] == cs[1..] + [c];
      SplitLastPhrases(cs[1..], c);
    }
  }

  /** With the intended filing, added and filtered phrases are kept apart,
      each in call order, and the keyword lists are as before. */
  lemma {:induction false} ReplayIntendedSeparatesFilters(cs: seq<Call>)
    ensures ReplayIntended(cs) == Lists(Added(cs), Filtered(cs), AddedPhrases(cs), FilteredPhrases(cs))
    decreases |cs|
  {
    if cs != [] {
      var init, c := cs[..|cs| - 1], cs[|cs| - 1];
      assert cs == init + [c];
      ReplayIntendedSeparatesFilters(init);
      SplitLast(init, c);
      SplitLastPhrases(init, c);
    }
  }

  /** The text before the first space and the text after it, or `None`
      when there is no space. */
  function SplitAtSpace(s: Bytes): Option<(Bytes, Bytes)>
    decreases |s|
  {
    if s == [] then None
    else if s[0] == ' ' then Some(([], s[1..]))
    else match SplitAtSpace(s[1..])
      case None => None
      case Some((a, b)) => Some(([s[0]] + a, b))
  }

  /** `WithValueAndTag`'s text (rules/rule_builder.go:35-37): value and tag
      joined by one space. */
  function ValueAndTag(value: Bytes, tag: Bytes): (r: Bytes)
    ensures |r| == |value| + 1 + |tag|
    ensures r[..|value|] == value && r[|value|] == ' ' && r[|value| + 1..] == tag
  {
    value + " " + tag
  }

  /** A value without spaces and its tag, which may hold spaces, can be told
      apart again at the first space. */
  lemma {:induction false} ValueAndTagSplits(value: Bytes, tag: Bytes)
    requires forall i :: 0 <= i < |value| ==> value[i] != ' '
    ensures SplitAtSpace(ValueAndTag(value, tag)) == Some((value, tag))
    decreases |value|
  {
    var r := ValueAndTag(value, tag);
    if value == [] {
      assert r[1..] == tag;
    } else {
      assert r[1..] == ValueAndTag(value[1..], tag);
      ValueAndTagSplits(value[1..], tag);
      assert [value[0]] + value[1..] == value;
    }
  }

  /** `RuleBuilder` (rules/rule_builder.go:15-20). `calls` is the chain of
      calls made on it so far. */
  class RuleBuilder {
    var keywords: seq<Bytes>
    var filterKeywords: seq<Bytes>
    var exactPhrase: seq<Bytes>
    var filterExactPhrase: seq<Bytes>
    ghost var calls: seq<Call>

    function State(): Lists
      reads this
    {
      Lists(keywords, filterKeywords, exactPhrase, filterExactPhrase)
    }

    /** The lists are what the calls made so far leave behind. */
    ghost predicate Valid()
      reads this
    {
      State() == Replay(calls)
    }

    /** `NewRuleBuilder` (rules/rule_builder.go:22-29): four empty lists. */
    constructor NewRuleBuilder()
      ensures Valid() && calls == [] && State() == Empty
    {
      keywords, filterKeywords, exactPhrase, filterExactPhrase := [], [], [], [];
      calls := [];
    }

    /** `Build` (rules/rule_builder.go:31-33): a fixed text whatever the lists hold. */
    function Build(): (r: Bytes)
      ensures r == "lol"
    {
      "lol"
    }

    /** `WithValueAndTag` (rules/rule_builder.go:35-37): reads and changes nothing. */
    function WithValueAndTag(value: Bytes, tag: Bytes): (r: Bytes)
      ensures r == ValueAndTag(value, tag)
    {
      ValueAndTag(value, tag)
    }

    /** `AddKeyword` (rules/rule_builder.go:39-42). */
    method AddKeyword(keyword: Bytes) returns (self: RuleBuilder)
      requires Valid()
      modifies this
      ensures Valid() && calls == old(calls) + [KeywordAdded(keyword)] && self == this
      ensures keywords == old(keywords) + [keyword]
      ensures filterKeywords == old(filterKeywords) && exactPhrase == old(exactPhrase)
      ensures filterExactPhrase == old(filterExactPhrase)
    {
      keywords := keywords + [keyword];
      calls := calls + [KeywordAdded(keyword)];
      self := this;
    }

    /** `FilterKeyword` (rules/rule_builder.go:44-47). */
    method FilterKeyword(keyword: Bytes) returns (self: RuleBuilder)
      requires Valid()
      modifies this
      ensures Valid() && calls == old(calls) + [KeywordFiltered(keyword)] && self == this
      ensures filterKeywords == old(filterKeywords) + [Negate(keyword)]
      ensures keywords == old(keywords) && exactPhrase == old(exactPhrase)
      ensures filterExactPhrase == old(filterExactPhrase)
    {
      filterKeywords := filterKeywords + [Negate(keyword)];
      calls := calls + [KeywordFiltered(keyword)];
      self := this;
    }

    /** `AddExactPhrase` (rules/rule_builder.go:49-52). */
    method AddExactPhrase(phrase: Bytes) returns (self: RuleBuilder)
      requires Valid()
      modifies this
      ensures Valid() && calls == old(calls) + [PhraseAdded(phrase)] && self == this
      ensures exactPhrase == old(exactPhrase) + [phrase]
      ensures keywords == old(keywords) && filterKeywords == old(filterKeywords)
      ensures filterExactPhrase == old(filterExactPhrase)
    {
      exactPhrase := exactPhrase + [phrase];
      calls := calls + [PhraseAdded(phrase)];
      self := this;
    }

    /** `FilterExactPhrase` (rules/rule_builder.go:54-57): the negated
        phrase goes to `exactPhrase`; `filterExactPhrase` is left alone. */
    method FilterExactPhrase(phrase: Bytes) returns (self: RuleBuilder)
      requires Valid()
      modifies this
      ensures Valid() && calls == old(calls) + [PhraseFiltered(phrase)] && self == this
      ensures exactPhrase == old(exactPhrase) + [Negate(phrase)]
      ensures keywords == old(keywords) && filterKeywords == old(filterKeywords)
      ensures filterExactPhrase == old(filterExactPhrase)
    {
      exactPhrase := exactPhrase + [Negate(phrase)];
      calls := calls + [PhraseFiltered(phrase)];
      self := this;
    }
  }

  /** Whatever chain of calls a builder has seen, `filterExactPhrase` is empty. */
  lemma FilterExactPhraseNeverWritten(b: RuleBuilder)
    requires b.Valid()
    ensures b.filterExactPhrase == []
    ensures b.keywords == Added(b.calls) && b.filterKeywords == Filtered(b.calls)
    ensures b.exactPhrase == Phrases(b.calls)
  {
    ReplayLists(b.calls);
  }
}
