/** The selector store of src/seedLinkClientOptions.cpp and the loop that fills it
  in src/modules/programOptions.cppm.
 */
module SeedLinkClientOptions {
  import opened Wrappers
  import opened Text
  import opened StreamSelectors

  datatype Key = Key(network: string, station: string, selector: string)

  function KeyOf(s: Selector): Key {
    Key(s.network, s.station, Printed(s))
  }

  /** Selectors are compared by key; here any function of the elements. */
  ghost predicate Stored<T(!new), K(!new)>(keyOf: T -> K, stored: seq<T>, key: K) {
    exists i :: 0 <= i < |stored| && keyOf(stored[i]) == key
  }

  ghost predicate DistinctKeys<T(!new), K(!new)>(keyOf: T -> K, stored: seq<T>) {
    forall i, j :: 0 <= i < j < |stored| ==> keyOf(stored[i]) != keyOf(stored[j])
  }

  /** The elements whose key no earlier one has, in order. */
  ghost function FirstOccurrences<T(!new), K(!new)>(keyOf: T -> K, calls: seq<T>): seq<T>
    decreases |calls|
  {
    if calls == [] then []
    else
      var n := |calls| - 1;
      FirstOccurrences(keyOf, calls[..n]) + if Stored(keyOf, calls[..n], keyOf(calls[n])) then [] else [calls[n]]
  }

  lemma {:induction false} FirstOccurrencesKeys<T(!new), K(!new)>(keyOf: T -> K, calls: seq<T>)
    ensures DistinctKeys(keyOf, FirstOccurrences(keyOf, calls))
    ensures forall k :: Stored(keyOf, FirstOccurrences(keyOf, calls), k) <==> Stored(keyOf, calls, k)
    decreases |calls|
  {
    if calls != [] {
      var n := |calls| - 1;
      var before := FirstOccurrences(keyOf, calls[..n]);
      FirstOccurrencesKeys(keyOf, calls[..n]);
      assert calls == calls[..n] + [calls[n]];
      forall k ensures Stored(keyOf, FirstOccurrences(keyOf, calls), k) <==> Stored(keyOf, calls, k) {
        StoredAppend(keyOf, calls[..n], calls[n], k);
        StoredAppend(keyOf, before, calls[n], k);
        if Stored(keyOf, calls[..n], keyOf(calls[n])) {
          assert FirstOccurrences(keyOf, calls) == before;
        } else {
          assert FirstOccurrences(keyOf, calls) == before + [calls[n]];
        }
      }
    }
  }

  lemma StoredAppend<T(!new), K(!new)>(keyOf: T -> K, stored: seq<T>, t: T, k: K)
    ensures Stored(keyOf, stored + [t], k) <==> Stored(keyOf, stored, k) || keyOf(t) == k
  {
    var more := stored + [t];
    if Stored(keyOf, stored, k) {
      var i :| 0 <= i < |stored| && keyOf(stored[i]) == k;
      assert keyOf(more[i]) == k;
    }
    if keyOf(t) == k {
      assert keyOf(more[|stored|]) == k;
    }
  }

  lemma FirstOccurrencesSnoc<T(!new), K(!new)>(keyOf: T -> K, calls: seq<T>, t: T)
    ensures FirstOccurrences(keyOf, calls + [t])
            == FirstOccurrences(keyOf, calls) + if Stored(keyOf, calls, keyOf(t)) then [] else [t]
  {
    assert (calls + [t])[..|calls|] == calls;
  }

  /** Nothing is left out exactly when all keys differ. */
  lemma {:induction false} AllKeptIffDistinct<T(!new), K(!new)>(keyOf: T -> K, calls: seq<T>)
    ensures FirstOccurrences(keyOf, calls) == calls <==> DistinctKeys(keyOf, calls)
    ensures |FirstOccurrences(keyOf, calls)| <= |calls|
    decreases |calls|
  {
    if calls != [] {
      var n := |calls| - 1;
      AllKeptIffDistinct(keyOf, calls[..n]);
      FirstOccurrencesKeys(keyOf, calls);
      assert calls == calls[..n] + [calls[n]];
      if Stored(keyOf, calls[..n], keyOf(calls[n])) {
        var i :| 0 <= i < n && keyOf(calls[..n][i]) == keyOf(calls[n]);
        assert calls[..n][i] == calls[i];
        assert !DistinctKeys(keyOf, calls);
      }
    }
  }

  /** Texts that parse to different selectors can share a key, and then the store
      refuses the second as a duplicate. */
  lemma KeysCanCollide(network: string, station: string, channel: string, location: string)
    requires IsWord(network) && IsWord(station) && IsWord(channel) && IsWord(location)
    requires |network| == 2 && ToUpper(location) == location
    ensures var a := Parsed(Joined([network, station, location + channel, "D"]));
      var b := Parsed(Joined([network, station, channel, location, "D"]));
      && a.Ok? && b.Ok? && a.value != b.value && a.value.network != "" && b.value.network != ""
      && KeyOf(a.value) == KeyOf(b.value)
      && FirstOccurrences(KeyOf, [a.value, b.value]) == [a.value]
  {
    TextsCanCollide(network, station, channel, location);
    var a := Parsed(Joined([network, station, location + channel, "D"])).value;
    var b := Parsed(Joined([network, station, channel, location, "D"])).value;
    SecondIsDropped(KeyOf, a, b);
  }

  lemma SecondIsDropped<T(!new), K(!new)>(keyOf: T -> K, a: T, b: T)
    requires keyOf(a) == keyOf(b)
    ensures FirstOccurrences(keyOf, [a, b]) == [a]
  {
    assert [a, b][..1] == [a] && [a][..0] == [];
    assert FirstOccurrences(keyOf, [a]) == [a];
    assert keyOf([a][0]) == keyOf(b);
    assert Stored(keyOf, [a], keyOf(b));
  }

  /** Exactly when two selectors share a key. */
  lemma SameKeyIff(a: Selector, b: Selector)
    ensures KeyOf(a) == KeyOf(b) <==>
              && a.network == b.network && a.station == b.station
              && if PrintsNothing(a) || PrintsNothing(b) then PrintsNothing(a) && PrintsNothing(b)
                 else a.kind == b.kind && Place(a) + Channel(a) == Place(b) + Channel(b)
  {
    PrintedAlikeIff(a, b);
  }

  class ClientOptions {
    var selectors: seq<Selector>

    /** Every selector addStreamSelector was called with, in call order. */
    ghost var calls: seq<Selector>

    ghost predicate Valid()
      reads this
    {
      selectors == FirstOccurrences(KeyOf, calls)
    }

    constructor ()
      ensures Valid() && selectors == [] && calls == []
    {
      selectors, calls := [], [];
    }

    /** addStreamSelector: throws without a network, returns false for a duplicate,
        and otherwise stores the selector at the end. */
    method AddStreamSelector(selector: Selector) returns (added: Result<bool, SelectorError>)
      requires Valid()
      modifies this
      ensures Valid()
      ensures selector.network == "" ==> added == Err(BadNetwork) && selectors == old(selectors) && calls == old(calls)
      ensures selector.network != "" ==> added == Ok(!Stored(KeyOf, old(calls), KeyOf(selector))) && calls == old(calls) + [selector]
      ensures selector.network != "" ==> selectors == if added.value then old(selectors) + [selector] else old(selectors)
    {
      if selector.network == "" {
        return Err(BadNetwork);
      }
      var found := IsStored(selector);
      FirstOccurrencesKeys(KeyOf, calls);
      FirstOccurrencesSnoc(KeyOf, calls, selector);
      calls := calls + [selector];
      if found {
        return Ok(false);
      }
      selectors := selectors + [selector];
      added := Ok(true);
    }

    /** The scan of addStreamSelector. */
    method IsStored(selector: Selector) returns (found: bool)
      ensures found == Stored(KeyOf, selectors, KeyOf(selector))
    {
      for i := 0 to |selectors|
        invariant forall j :: 0 <= j < i ==> KeyOf(selectors[j]) != KeyOf(selector)
      {
        if selector.network == selectors[i].network && selector.station == selectors[i].station
           && Printed(selector) == Printed(selectors[i])
        {
          assert KeyOf(selectors[i]) == KeyOf(selector);
          return true;
        }
      }
      found := false;
    }
  }

  // ----- The configuration loop -----

  const LAST_SELECTOR: nat := 32768
  const LIST_SEPARATORS: set<char> := {',', '|'}

  datatype LoadError = BadSelector(error: SelectorError) | Duplicate(selector: Selector)

  /** The selector strings of entries data_selector_1 to data_selector_last, in order. */
  function Listed(entries: map<nat, string>, last: nat): seq<string> {
    if last == 0 then []
    else Listed(entries, last - 1) + if last in entries then Split(entries[last], LIST_SEPARATORS) else []
  }

  /** The texts of an entry, without commas and bars, written out with commas or bars
      between them. */
  ghost predicate Writes(entry: string, texts: seq<string>) {
    && (exists between: seq<char> ::
          && |texts| == |between| + 1 && Written(texts, between) == entry
          && forall i :: 0 <= i < |between| ==> between[i] == ',' || between[i] == '|')
    && forall i :: 0 <= i < |texts| ==> ',' !in texts[i] && '|' !in texts[i]
  }

  /** Every entry adds the texts written in it, which are determined by it, and a missing
      one adds none. */
  lemma ListedAdds(entries: map<nat, string>, k: nat, texts: seq<string>)
    requires k > 0 && if k in entries then Writes(entries[k], texts) else texts == []
    ensures Listed(entries, 0) == [] && Listed(entries, k) == Listed(entries, k - 1) + texts
  {
    if k in entries {
      var between: seq<char> :|
        && |texts| == |between| + 1 && Written(texts, between) == entries[k]
        && forall i :: 0 <= i < |between| ==> between[i] == ',' || between[i] == '|';
      SplitOfWritten(texts, between, LIST_SEPARATORS);
    }
  }

  lemma EveryEntryIsWritten(entry: string)
    ensures Writes(entry, Split(entry, LIST_SEPARATORS))
  {
    var between := WrittenOfSplit(entry, LIST_SEPARATORS);
    assert forall i :: 0 <= i < |between| ==> between[i] in LIST_SEPARATORS;
    forall i | 0 <= i < |Split(entry, LIST_SEPARATORS)|
      ensures ',' !in Split(entry, LIST_SEPARATORS)[i] && '|' !in Split(entry, LIST_SEPARATORS)[i]
    {
      assert NoneIn(Split(entry, LIST_SEPARATORS)[i], LIST_SEPARATORS);
    }
  }

  /** texts parse, one by one, to selectors. */
  ghost predicate ParseTo(texts: seq<string>, parsed: seq<Selector>) {
    |texts| == |parsed| && forall i :: 0 <= i < |texts| ==> Parsed(texts[i]) == Ok(parsed[i])
  }

  lemma {:induction false} ListedIsPrefix(entries: map<nat, string>, n: nat, last: nat)
    requires n <= last
    ensures Listed(entries, n) <= Listed(entries, last)
  {
    if n < last {
      ListedIsPrefix(entries, n, last - 1);
    }
  }

  lemma ParsedHasNetwork(text: string)
    ensures Parsed(text).Ok? ==> Parsed(text).value.network != ""
  {
  }

  /** A text that does not parse, or whose key came earlier, keeps the whole list
      from being loaded. */
  ghost predicate Loadable(texts: seq<string>) {
    exists parsed :: ParseTo(texts, parsed) && DistinctKeys(KeyOf, parsed)
  }

  lemma NotLoadable(texts: seq<string>, done: seq<Selector>)
    requires |done| < |texts| && ParseTo(texts[..|done|], done)
    requires Parsed(texts[|done|]).Err? || Stored(KeyOf, done, KeyOf(Parsed(texts[|done|]).value))
    ensures !Loadable(texts)
  {
    forall parsed | ParseTo(texts, parsed) ensures !DistinctKeys(KeyOf, parsed) {
      var n := |done|;
      assert Parsed(texts[n]) == Ok(parsed[n]);
      var i :| 0 <= i < n && KeyOf(done[i]) == KeyOf(parsed[n]);
      assert texts[..n][i] == texts[i];
      assert parsed[i] == done[i];
    }
  }

  /** The store holds the selectors that texts parse to, one for one. */
  ghost predicate Loaded(options: ClientOptions, texts: seq<string>)
    reads options
  {
    && options.Valid() && options.selectors == options.calls
    && DistinctKeys(KeyOf, options.calls) && ParseTo(texts, options.calls)
  }

  /** Parses one more text and adds it; earlier are the texts already loaded. */
  method LoadSelector(text: string, options: ClientOptions, ghost earlier: seq<string>, ghost texts: seq<string>)
      returns (error: Option<LoadError>)
    requires Loaded(options, earlier) && earlier + [text] <= texts
    modifies options
    ensures options.Valid()
    ensures error.None? ==> Loaded(options, earlier + [text])
    ensures error.Some? ==> !Loadable(texts)
  {
    ghost var done := options.calls;
    assert texts[..|done|] == earlier && texts[|done|] == text;
    var selector := StreamSelector.FromString(text);
    if selector.Err? {
      NotLoadable(texts, done);
      return Some(BadSelector(selector.error));
    }
    ParsedHasNetwork(text);
    var added := options.AddStreamSelector(selector.value.Value());
    if added.Err? || !added.value {
      NotLoadable(texts, done);
      return Some(Duplicate(selector.value.Value()));
    }
    AllKeptIffDistinct(KeyOf, options.calls);
    error := None;
  }

  lemma OneMoreText(earlier: seq<string>, list: seq<string>, i: nat, texts: seq<string>)
    requires i < |list| && earlier + list <= texts
    ensures earlier + list[..i + 1] == earlier + list[..i] + [list[i]]
    ensures earlier + list[..i] + [list[i]] <= texts
  {
    assert list[..i + 1] == list[..i] + [list[i]];
    assert earlier + list[..i] + [list[i]] <= earlier + list;
  }

  /** Parses and adds the selectors of one entry. */
  method LoadList(splitSelectors: seq<string>, options: ClientOptions, ghost earlier: seq<string>, ghost texts: seq<string>)
      returns (error: Option<LoadError>)
    requires Loaded(options, earlier) && earlier + splitSelectors <= texts
    modifies options
    ensures options.Valid()
    ensures error.None? ==> Loaded(options, earlier + splitSelectors)
    ensures error.Some? ==> !Loadable(texts)
  {
    assert earlier + splitSelectors[..0] == earlier;
    for i := 0 to |splitSelectors|
      invariant Loaded(options, earlier + splitSelectors[..i])
    {
      OneMoreText(earlier, splitSelectors, i, texts);
      error := LoadSelector(splitSelectors[i], options, earlier + splitSelectors[..i], texts);
      if error.Some? {
        return;
      }
    }
    assert splitSelectors[..|splitSelectors|] == splitSelectors;
    error := None;
  }

  lemma LoadedIsLoadable(options: ClientOptions, texts: seq<string>)
    requires Loaded(options, texts)
    ensures Loadable(texts)
  {
  }

  /** Loads entry k, if it is there, after those before it. */
  method LoadEntry(entries: map<nat, string>, k: nat, last: nat, options: ClientOptions) returns (error: Option<LoadError>)
    requires 1 <= k <= last && Loaded(options, Listed(entries, k - 1))
    modifies options
    ensures options.Valid()
    ensures error.None? ==> Loaded(options, Listed(entries, k))
    ensures error.Some? ==> !Loadable(Listed(entries, last))
  {
    ListedIsPrefix(entries, k, last);
    if k in entries {
      error := LoadList(Split(entries[k], LIST_SEPARATORS), options, Listed(entries, k - 1), Listed(entries, last));
    } else {
      error := None;
      assert Listed(entries, k - 1) + [] == Listed(entries, k - 1);
    }
  }

  /** The selector loop of getSEEDLinkOptions over entries 1 to last. */
  method LoadEntries(entries: map<nat, string>, last: nat, options: ClientOptions) returns (error: Option<LoadError>)
    requires options.Valid() && options.calls == []
    modifies options
    ensures options.Valid()
    ensures error.None? ==> Loaded(options, Listed(entries, last))
    ensures error.Some? ==> !Loadable(Listed(entries, last))
  {
    var iSelector := 1;
    while iSelector <= last
      invariant 1 <= iSelector <= last + 1
      invariant Loaded(options, Listed(entries, iSelector - 1))
    {
      error := LoadEntry(entries, iSelector, last, options);
      if error.Some? {
        return;
      }
      iSelector := iSelector + 1;
    }
    error := None;
  }

  /** The whole loop, over entries 1 to 32768.  It succeeds exactly when every listed text
      parses and no two selectors have the same key, and then the store holds the
      parsed selectors in order. */
  method LoadSelectors(entries: map<nat, string>, options: ClientOptions) returns (error: Option<LoadError>)
    requires options.Valid() && options.calls == []
    modifies options
    ensures options.Valid()
    ensures forall last: nat :: last == 32768 ==>
              && (error.None? <==> Loadable(Listed(entries, last)))
              && (error.None? ==> ParseTo(Listed(entries, last), options.selectors))
  {
    ghost var last := LAST_SELECTOR;
    error := LoadEntries(entries, LAST_SELECTOR, options);
    if error.None? {
      LoadedIsLoadable(options, Listed(entries, last));
    }
  }
}
