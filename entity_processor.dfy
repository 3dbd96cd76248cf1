/** EntityProcessor<T>: compiles an entity's target-URL rules into URL
    extractors when it is constructed, and hands the records it extracts from
    a page to the page's result items. */
module EntityProcessors {
  import opened Wrappers
  import opened Text

  /** One entry of an entity's TargetUrlsSelectors: region XPaths and URL
      patterns, each list possibly null and each element possibly null. */
  datatype TargetUrlsSelector = TargetUrlsSelector(xPaths: Option<seq<Option<string>>>, patterns: Option<seq<Option<string>>>)

  /** The arguments of one AddTargetUrlExtractor call: the region XPath (null
      means the whole page) and the pattern array (possibly null). */
  datatype TargetUrlExtractor = TargetUrlExtractor(region: Option<string>, patterns: Option<seq<Option<string>>>)

  /** `list?.Select(x => x?.Trim()).Distinct()`: a null list stays null. */
  function NormaliseList(l: Option<seq<Option<string>>>): (r: Option<seq<Option<string>>>)
    ensures r.None? <==> l.None?
    ensures r.Some? ==> NoDuplicates(r.value) && (|r.value| == 0 <==> |l.value| == 0)
  {
    match l
    case None => None
    case Some(xs) => Some(Normalise(xs))
  }

  /** One extractor per region, each with the same patterns, in region order. */
  function PerRegion(regions: seq<Option<string>>, patterns: Option<seq<Option<string>>>): (r: seq<TargetUrlExtractor>)
    ensures Regions(r) == regions
    ensures forall e :: e in r ==> e.patterns == patterns
  {
    seq(|regions|, i requires 0 <= i < |regions| => TargetUrlExtractor(regions[i], patterns))
  }

  /** The regions of a list of extractors, in order. */
  function Regions(es: seq<TargetUrlExtractor>): (r: seq<Option<string>>)
    ensures |r| == |es|
  {
    seq(|es|, i requires 0 <= i < |es| => es[i].region)
  }

  /** The registrations one target-URL rule produces, or the exception it raises. */
  function CompileSelector(sel: TargetUrlsSelector): (r: Result<seq<TargetUrlExtractor>, SpiderError>)
    // only a rule with both lists null is rejected; two empty lists are not
    ensures r.Failure? <==> sel.xPaths.None? && sel.patterns.None?
    ensures r.Failure? ==> r.error == NullRegionAndPatterns
  {
    var patterns := NormaliseList(sel.patterns);
    var xpaths := NormaliseList(sel.xPaths);
    if xpaths.None? && patterns.None? then
      Failure(NullRegionAndPatterns)
    else if xpaths.Some? && |xpaths.value| > 0 then
      Success(PerRegion(xpaths.value, patterns))
    else if patterns.Some? && |patterns.value| > 0 then
      Success([TargetUrlExtractor(None, patterns)])
    else
      Success([])
  }

  /** What a rule that does not throw registers. */
  lemma CompileSelectorRegistrations(sel: TargetUrlsSelector)
    requires sel.xPaths.Some? || sel.patterns.Some?
    // every registration carries the rule's normalised patterns
    ensures forall e :: e in CompileSelector(sel).value ==> e.patterns == NormaliseList(sel.patterns)
    // nothing is registered exactly when both lists are null or empty
    ensures CompileSelector(sel).value == [] <==> IsNullOrEmpty(sel.xPaths) && IsNullOrEmpty(sel.patterns)
    // with XPaths: one registration per distinct trimmed XPath, in first-occurrence order
    ensures !IsNullOrEmpty(sel.xPaths) ==> Regions(CompileSelector(sel).value) == Normalise(sel.xPaths.value)
    // without XPaths: at most one registration, for the whole page
    ensures IsNullOrEmpty(sel.xPaths) ==>
      |CompileSelector(sel).value| <= 1 && forall e :: e in CompileSelector(sel).value ==> e.region.None?
  {
    var r := CompileSelector(sel).value;
    var xpaths := NormaliseList(sel.xPaths);
    if xpaths.Some? && |xpaths.value| > 0 {
      assert Regions(r) == xpaths.value;
    }
  }

  /** Some rule of the list has both lists null. */
  predicate HasNullRule(sels: seq<TargetUrlsSelector>) {
    TargetUrlsSelector(None, None) in sels
  }

  /** The registrations of a list of rules, in rule order, or the exception
      of the first rule that raises one. */
  function CompileAll(sels: seq<TargetUrlsSelector>): (r: Result<seq<TargetUrlExtractor>, SpiderError>)
    ensures r.Failure? <==> HasNullRule(sels)
    ensures r.Failure? ==> r.error == NullRegionAndPatterns
    decreases |sels|
  {
    if sels == [] then Success([])
    else
      var init := sels[..|sels| - 1];
      var last := sels[|sels| - 1];
      assert sels == init + [last];
      match CompileAll(init)
      case Failure(e) => Failure(e)
      case Success(v) =>
        match CompileSelector(last)
        case Failure(e) => Failure(e)
        case Success(w) => Success(v + w)
  }

  /** One more rule: its registrations are appended, or a rule with both
      lists null makes the whole list fail. */
  lemma CompileAllStep(sels: seq<TargetUrlsSelector>, i: nat)
    requires i < |sels| && CompileAll(sels[..i]).Success?
    ensures CompileSelector(sels[i]).Failure? ==> HasNullRule(sels)
    ensures CompileAll(sels[..i + 1]) ==
      if CompileSelector(sels[i]).Failure? then Failure(NullRegionAndPatterns)
      else Success(CompileAll(sels[..i]).value + CompileSelector(sels[i]).value)
  {
    assert sels[..i + 1][..i] == sels[..i] && sels[..i + 1][i] == sels[i];
  }

  /** What the constructor registers for an entity's TargetUrlsSelectors: nothing
      when there are none, else the registrations of every rule. */
  function CompileRules(selectors: Option<seq<TargetUrlsSelector>>): (r: Result<seq<TargetUrlExtractor>, SpiderError>)
    ensures IsNullOrEmpty(selectors) ==> r == Success([])
    ensures r.Failure? <==> selectors.Some? && HasNullRule(selectors.value)
  {
    if IsNullOrEmpty(selectors) then Success([]) else CompileAll(selectors.value)
  }

  /** The list Handle hands to the page: the final list when it is neither null
      nor empty, and nothing otherwise. */
  function Attachment<T>(list: Option<seq<T>>): (r: Option<seq<T>>)
    ensures r.Some? <==> list.Some? && |list.value| > 0
    ensures r.Some? ==> r == list
  {
    if list.None? || |list.value| == 0 then None else list
  }

  /** A crawled page: its parsed content and its result items. */
  class Page<T> {
    const content: string
    var resultItems: map<string, seq<T>>

    constructor (content: string)
      ensures this.content == content && resultItems == map[]
    {
      this.content := content;
      resultItems := map[];
    }

    method AddResultItem(key: string, value: seq<T>)
      modifies this
      ensures resultItems == old(resultItems)[key := value]
    {
      resultItems := resultItems[key := value];
    }
  }

  class EntityProcessor<T> {
    /** Extractor.Name: the key the records are stored under. */
    const name: string
    /** Extractor.Extract: the records (possibly a null list) found in a page's content. */
    const extract: string -> Option<seq<T>>
    /** Extractor.DataHandler: the optional post-extraction transform of the list. */
    const dataHandler: Option<(Option<seq<T>>, string) -> Option<seq<T>>>
    /** The target-URL extractors registered with the base page processor, in call order. */
    var targetUrlExtractors: seq<TargetUrlExtractor>

    constructor Init(name: string, extract: string -> Option<seq<T>>,
                     dataHandler: Option<(Option<seq<T>>, string) -> Option<seq<T>>>)
      ensures this.name == name && this.extract == extract && this.dataHandler == dataHandler
      ensures targetUrlExtractors == []
    {
      this.name := name;
      this.extract := extract;
      this.dataHandler := dataHandler;
      targetUrlExtractors := [];
    }

    method AddTargetUrlExtractor(region: Option<string>, patterns: Option<seq<Option<string>>>)
      modifies this`targetUrlExtractors
      ensures targetUrlExtractors == old(targetUrlExtractors) + [TargetUrlExtractor(region, patterns)]
    {
      targetUrlExtractors := targetUrlExtractors + [TargetUrlExtractor(region, patterns)];
    }

    /** The inner loop of the constructor: one registration per region. */
    method AddPerRegion(regions: seq<Option<string>>, patterns: Option<seq<Option<string>>>)
      modifies this`targetUrlExtractors
      ensures targetUrlExtractors == old(targetUrlExtractors) + PerRegion(regions, patterns)
    {
      for j := 0 to |regions|
        invariant targetUrlExtractors == old(targetUrlExtractors) + PerRegion(regions[..j], patterns)
      {
        AddTargetUrlExtractor(regions[j], patterns);
        assert PerRegion(regions[..j + 1], patterns) == PerRegion(regions[..j], patterns) + [TargetUrlExtractor(regions[j], patterns)];
      }
      assert regions[..|regions|] == regions;
    }

    /** The body of the constructor's loop, for one target-URL rule. */
    method AddTargetUrlRule(sel: TargetUrlsSelector) returns (r: Result<(), SpiderError>)
      modifies this`targetUrlExtractors
      ensures r.Failure? <==> CompileSelector(sel).Failure?
      ensures r.Failure? ==> r.error == NullRegionAndPatterns && targetUrlExtractors == old(targetUrlExtractors)
      ensures r.Success? ==> targetUrlExtractors == old(targetUrlExtractors) + CompileSelector(sel).value
    {
      var patterns := NormaliseList(sel.patterns);
      var xpaths := NormaliseList(sel.xPaths);
      if xpaths.None? && patterns.None? {
        return Failure(NullRegionAndPatterns);
      }
      if xpaths.Some? && |xpaths.value| > 0 {
        AddPerRegion(xpaths.value, patterns);
      } else if patterns.Some? && |patterns.value| > 0 {
        AddTargetUrlExtractor(None, patterns);
      }
      return Success(());
    }

    /** One pass of the constructor's loop: the rule `sels[i]`, after the rules before it. */
    method AddTargetUrlRuleAt(sels: seq<TargetUrlsSelector>, i: nat, ghost before: seq<TargetUrlExtractor>)
      returns (r: Result<(), SpiderError>)
      requires i < |sels| && CompileAll(sels[..i]).Success?
      requires targetUrlExtractors == before + CompileAll(sels[..i]).value
      modifies this`targetUrlExtractors
      ensures r.Failure? ==> HasNullRule(sels) && r.error == NullRegionAndPatterns
      ensures r.Success? ==> CompileAll(sels[..i + 1]).Success?
      ensures r.Success? ==> targetUrlExtractors == before + CompileAll(sels[..i + 1]).value
    {
      CompileAllStep(sels, i);
      r := AddTargetUrlRule(sels[i]);
      if r.Success? {
        AppendAssociative(before, CompileAll(sels[..i]).value, CompileSelector(sels[i]).value);
      }
    }

    /** The constructor's loop over the entity's target-URL rules. */
    method AddTargetUrlRules(selectors: Option<seq<TargetUrlsSelector>>) returns (r: Result<(), SpiderError>)
      modifies this`targetUrlExtractors
      ensures r.Failure? <==> CompileRules(selectors).Failure?
      ensures r.Failure? ==> r.error == NullRegionAndPatterns
      ensures r.Success? ==> targetUrlExtractors == old(targetUrlExtractors) + CompileRules(selectors).value
    {
      if selectors.None? || |selectors.value| == 0 {
        return Success(());
      }
      var sels := selectors.value;
      for i := 0 to |sels|
        invariant CompileAll(sels[..i]).Success?
        invariant targetUrlExtractors == old(targetUrlExtractors) + CompileAll(sels[..i]).value
      {
        r := AddTargetUrlRuleAt(sels, i, old(targetUrlExtractors));
        if r.Failure? {
          return;
        }
      }
      assert sels[..|sels|] == sels;
      return Success(());
    }

    /** The list after extraction and the optional data handler. */
    function FinalList(content: string): (r: Option<seq<T>>)
      reads this
      // without a handler the extracted list is used as it is
      ensures dataHandler.None? ==> r == extract(content)
      // with one, the handler sees the extracted list and the page
      ensures dataHandler.Some? ==> r == dataHandler.value(extract(content), content)
    {
      var list := extract(content);
      if dataHandler.Some? then dataHandler.value(list, content) else list
    }

    /** Handle: extract, apply the data handler when one is set, and add the
        list to the page's result items only when it is non-null and non-empty. */
    method Handle(page: Page<T>)
      modifies page
      ensures Attachment(FinalList(page.content)).None? ==> page.resultItems == old(page.resultItems)
      ensures Attachment(FinalList(page.content)).Some? ==>
        page.resultItems == old(page.resultItems)[name := FinalList(page.content).value]
    {
      var list := extract(page.content);
      if dataHandler.Some? {
        list := dataHandler.value(list, page.content);
      }
      if list.None? || |list.value| == 0 {
        return;
      }
      page.AddResultItem(name, list.value);
    }
  }

  /** The EntityProcessor constructor: a processor with every target-URL rule
      registered, or the exception a rule with both lists null raises. */
  method NewEntityProcessor<T>(name: string, extract: string -> Option<seq<T>>,
                               dataHandler: Option<(Option<seq<T>>, string) -> Option<seq<T>>>,
                               selectors: Option<seq<TargetUrlsSelector>>)
    returns (r: Result<EntityProcessor<T>, SpiderError>)
    ensures r.Failure? <==> CompileRules(selectors).Failure?
    ensures r.Failure? ==> r.error == NullRegionAndPatterns
    ensures r.Success? ==> fresh(r.value) && r.value.name == name && r.value.extract == extract
    ensures r.Success? ==> r.value.dataHandler == dataHandler && r.value.targetUrlExtractors == CompileRules(selectors).value
  {
    var p := new EntityProcessor.Init(name, extract, dataHandler);
    var added := p.AddTargetUrlRules(selectors);
    if added.Failure? {
      return Failure(added.error);
    }
    return Success(p);
  }

  /** Rules whose two lists are both present and both empty raise nothing and
      register nothing, however many of them there are. */
  lemma {:induction false} EmptyRulesRegisterNothing(sels: seq<TargetUrlsSelector>)
    requires forall i :: 0 <= i < |sels| ==> sels[i] == TargetUrlsSelector(Some([]), Some([]))
    ensures CompileAll(sels) == Success([])
    decreases |sels|
  {
    if sels != [] {
      var init := sels[..|sels| - 1];
      assert forall i :: 0 <= i < |init| ==> init[i] == sels[i];
      EmptyRulesRegisterNothing(init);
      var none: seq<TargetUrlExtractor> := [];
      assert CompileSelector(sels[|sels| - 1]) == Success(none);
      assert none + none == none;
    }
  }

  lemma NormaliseSingle(xpath: string)
    requires IsTrimmed(xpath)
    ensures Normalise([Some(xpath)]) == [Some(xpath)]
  {
    TrimOfTrimmed(xpath);
    assert TrimAll([Some(xpath)]) == [Some(xpath)];
    assert [Some(xpath)][..0] == [];
  }

  /** A rule with one XPath (no white space at its ends) and null patterns
      registers exactly one extractor, for that XPath. */
  lemma SingleXPathSelector(xpath: string)
    requires IsTrimmed(xpath)
    ensures CompileSelector(TargetUrlsSelector(Some([Some(xpath)]), None)) == Success([TargetUrlExtractor(Some(xpath), None)])
  {
    var sel := TargetUrlsSelector(Some([Some(xpath)]), None);
    NormaliseSingle(xpath);
    CompileSelectorRegistrations(sel);
    var c := CompileSelector(sel).value;
    assert Regions(c) == [Some(xpath)];
    assert |c| == 1 && c[0].region == Regions(c)[0];
    assert c[0] in c;
    assert c == [c[0]];
  }

  /** An entity whose only target-URL rule is such a rule registers exactly that extractor. */
  lemma SingleXPathRule(xpath: string)
    requires IsTrimmed(xpath)
    ensures CompileRules(Some([TargetUrlsSelector(Some([Some(xpath)]), None)]))
      == Success([TargetUrlExtractor(Some(xpath), None)])
  {
    var sel := TargetUrlsSelector(Some([Some(xpath)]), None);
    SingleXPathSelector(xpath);
    assert [sel][..0] == [] && [sel][..1] == [sel];
    assert CompileAll([]) == Success([]);
    CompileAllStep([sel], 0);
    assert [] + [TargetUrlExtractor(Some(xpath), None)] == [TargetUrlExtractor(Some(xpath), None)];
    assert !IsNullOrEmpty(Some([sel]));
  }

  /** Sequence concatenation is associative (stated once, generically, so the
      proofs about registration lists need not rediscover it). */
  lemma AppendAssociative<X>(x: seq<X>, y: seq<X>, z: seq<X>)
    ensures (x + y) + z == x + (y + z)
  {
  }

  /** A rule added at the end of a list without null rules appends its registrations. */
  lemma CompileAllSnoc(s: seq<TargetUrlsSelector>, x: TargetUrlsSelector)
    requires !HasNullRule(s + [x])
    ensures !HasNullRule(s) && x != TargetUrlsSelector(None, None)
    ensures CompileAll(s + [x]) == Success(CompileAll(s).value + CompileSelector(x).value)
  {
    assert (s + [x])[..|s|] == s && (s + [x])[|s|] == x;
  }

  /** Rules compile independently: the registrations of two lists of rules one
      after the other are those of the first list followed by those of the second. */
  lemma {:induction false} CompileAllAppend(a: seq<TargetUrlsSelector>, b: seq<TargetUrlsSelector>)
    requires !HasNullRule(a + b)
    ensures !HasNullRule(a) && !HasNullRule(b)
    ensures CompileAll(a + b) == Success(CompileAll(a).value + CompileAll(b).value)
    decreases |b|
  {
    if b == [] {
      assert a + b == a;
      assert CompileAll(b) == Success([]);
      assert CompileAll(a).value + [] == CompileAll(a).value;
    } else {
      var b' := b[..|b| - 1];
      var last := b[|b| - 1];
      assert a + b == (a + b') + [last];
      assert b == b' + [last];
      CompileAllSnoc(a + b', last);
      CompileAllAppend(a, b');
      CompileAllSnoc(b', last);
      var w := CompileSelector(last).value;
      AppendAssociative(CompileAll(a).value, CompileAll(b').value, w);
    }
  }
}
