/** The stream selector of src/streamSelector.cpp: parsing and printing. */
module StreamSelectors {
  import opened Wrappers
  import opened Text

  datatype Type = All | Data | Event | Calibration | Blockette | Timing | Log

  datatype Selector = Selector(
    network: string,
    station: string,
    channel: string,
    locationCode: string,
    kind: Type,
    noLocationCode: bool)

  /** A selector as constructed, before any setter. */
  const UNSET := Selector("", "*", "", "", All, false)

  datatype SelectorError = EmptySelector | BadNetwork | MissingStation | EmptyStation

  // ----- Collapsing spaces -----

  /** s with every run of spaces cut to its first. */
  function Collapsed(s: string): string {
    if |s| < 2 then s
    else if s[0] == ' ' && s[1] == ' ' then Collapsed(s[1..])
    else [s[0]] + Collapsed(s[1..])
  }

  /** The only white space in s is spaces. */
  ghost predicate OnlySpaces(s: string) {
    forall i :: 0 <= i < |s| && IsSpace(s[i]) ==> s[i] == ' '
  }

  const BLANKS: set<char> := {' ', '\t'}

  lemma {:induction false} CollapsedHasNoPair(s: string)
    ensures s != [] ==> Collapsed(s) != [] && Collapsed(s)[0] == s[0]
    ensures forall i :: 0 < i < |Collapsed(s)| ==> !(Collapsed(s)[i - 1] == ' ' && Collapsed(s)[i] == ' ')
  {
    if |s| >= 2 {
      CollapsedHasNoPair(s[1..]);
    }
  }

  lemma {:induction false} CollapsedSkipsSpaces(s: string)
    requires OnlySpaces(s) && s != [] && s[0] == ' ' && !IsSpace(s[|s| - 1])
    ensures var v := TrimLeft(s);
      && v != [] && |v| < |s| && v == s[|s| - |v|..] && !IsSpace(v[0])
      && Collapsed(s) == [' '] + Collapsed(v)
      && Words(s) == Words(v)
  {
    assert |s| >= 2;
    var u := s[1..];
    assert forall i :: 0 <= i < |u| ==> u[i] == s[i + 1];
    if IsSpace(s[1]) {
      assert u[0] == ' ';
      CollapsedSkipsSpaces(u);
      var v := TrimLeft(u);
      assert s[|s| - |v|..] == u[|u| - |v|..];
    } else {
      assert TrimLeft(u) == u;
    }
  }

  lemma SplitAtSpace(c: char, rest: string)
    requires c !in BLANKS
    ensures Split([c, ' '] + rest, BLANKS) == [[c]] + Split(rest, BLANKS)
  {
    var s := [c, ' '] + rest;
    assert s[1..] == [' '] + rest && s[1..][1..] == rest;
    assert Split(s[1..], BLANKS) == [[]] + Split(rest, BLANKS);
    assert ([[]] + Split(rest, BLANKS))[1..] == Split(rest, BLANKS);
    assert [c] + [] == [c];
  }

  lemma SplitKeeps(c: char, rest: string)
    requires c !in BLANKS
    ensures Split([c] + rest, BLANKS) == [[c] + Split(rest, BLANKS)[0]] + Split(rest, BLANKS)[1..]
  {
    assert ([c] + rest)[1..] == rest;
  }

  lemma WordsKeep(s: string)
    requires |s| >= 2 && !IsSpace(s[0]) && !IsSpace(s[1])
    ensures Words(s[1..]) != []
    ensures Words(s) == [[s[0]] + Words(s[1..])[0]] + Words(s[1..])[1..]
  {
    var n := |FirstWord(s[1..])|;
    assert s[n + 1..] == s[1..][n..];
  }

  /** Collapsing the spaces of a trimmed string and splitting it at single spaces
      gives its words. */
  lemma {:induction false} SplitCollapsedIsWords(s: string)
    requires OnlySpaces(s) && s != [] && !IsSpace(s[0]) && !IsSpace(s[|s| - 1])
    ensures Split(Collapsed(s), BLANKS) == Words(s)
    decreases |s|
  {
    if |s| == 1 {
      SplitKeeps(s[0], []);
      assert s == [s[0]] + [];
    } else if IsSpace(s[1]) {
      var u := s[1..];
      CollapsedSkipsSpaces(u);
      var v := TrimLeft(u);
      SplitCollapsedIsWords(v);
      SplitAtSpace(s[0], Collapsed(v));
      assert [s[0]] + ([' '] + Collapsed(v)) == [s[0], ' '] + Collapsed(v);
      assert FirstWord(s) == [s[0]] + FirstWord(u) == [s[0]];
    } else {
      SplitCollapsedIsWords(s[1..]);
      SplitKeeps(s[0], Collapsed(s[1..]));
      WordsKeep(s);
    }
  }

  /** A text of which the first n characters are collapsed already. */
  function PartCollapsed(s: string, n: nat): string
    requires n <= |s|
  {
    s[..n] + Collapsed(s[n..])
  }

  lemma CollapseErases(s: string, k: nat)
    requires 0 < k < |s| && s[k - 1] == s[k] == ' '
    ensures PartCollapsed(s[..k] + s[k + 1..], k - 1) == PartCollapsed(s, k - 1)
  {
    var erased := s[..k] + s[k + 1..];
    assert s[k - 1..][1..] == s[k..];
    assert erased[..k - 1] == s[..k - 1] && erased[k - 1..] == s[k..];
  }

  lemma CollapseAdvances(s: string, k: nat)
    requires 0 < k < |s| && !(s[k - 1] == s[k] == ' ')
    ensures PartCollapsed(s, k) == PartCollapsed(s, k - 1)
  {
    assert s[k - 1..][1..] == s[k..];
    assert s[..k] == s[..k - 1] + [s[k - 1]];
    assert s[..k - 1] + ([s[k - 1]] + Collapsed(s[k..])) == s[..k - 1] + [s[k - 1]] + Collapsed(s[k..]);
  }

  lemma CollapseEnds(s: string)
    requires s != []
    ensures PartCollapsed(s, |s| - 1) == s
  {
    var n := |s| - 1;
    assert s[n..] == [s[n]] && s == s[..n] + [s[n]];
  }

  // ----- Parsing -----

  /** getDataType: D asks for data, anything else for everything. */
  function DataType(letter: string): Type {
    if letter == "D" || letter == "d" then Data else All
  }

  /** setNetwork, setStation and the two setSelector. */
  function WithNetwork(s: Selector, network: string): Result<Selector, SelectorError> {
    if |network| != 2 then Err(BadNetwork) else Ok(s.(network := ToUpper(network)))
  }

  function WithStation(s: Selector, station: string): Result<Selector, SelectorError> {
    if station == [] then Err(EmptyStation) else Ok(s.(station := ToUpper(station)))
  }

  function WithChannel(s: Selector, channel: string, kind: Type): Selector {
    s.(channel := ToUpper(channel), locationCode := "", kind := kind, noLocationCode := true)
  }

  function WithLocation(s: Selector, channel: string, locationCode: string, kind: Type): Selector {
    s.(channel := ToUpper(channel), locationCode := locationCode, kind := kind, noLocationCode := false)
  }

  /** The channel, location code and type fromString takes from its tokens. */
  function WithRest(s: Selector, tokens: seq<string>): Selector {
    var channel := if |tokens| > 2 then Trim(tokens[2]) else "*";
    if |tokens| > 4 then
      WithLocation(s, channel, Trim(tokens[3]), DataType(Trim(tokens[|tokens| - 1])))
    else if |tokens| == 4 then
      if |tokens[3]| > 1 then WithLocation(s, channel, tokens[3], All)
      else WithChannel(s, channel, DataType(Trim(tokens[3])))
    else
      WithLocation(s, channel, "??", All)
  }

  /** What fromString makes of a string. */
  function Parsed(streamSelector: string): Result<Selector, SelectorError> {
    var s := Collapsed(Trim(streamSelector));
    var tokens := Split(s, BLANKS);
    if s == [] then Err(EmptySelector)
    else
      var withNetwork := WithNetwork(UNSET, Trim(tokens[0]));
      if withNetwork.Err? then withNetwork
      else if |s| > 1 && |tokens| < 2 then Err(MissingStation)
      else
        var withStation := if |s| > 1 then WithStation(withNetwork.value, Trim(tokens[1])) else withNetwork;
        if withStation.Err? then withStation
        else Ok(WithRest(withStation.value, tokens))
  }

  /** The selector that a list of at least two words stands for. */
  function OfWords(words: seq<string>): Selector
    requires |words| >= 2
  {
    var n := |words|;
    Selector(
      ToUpper(words[0]),
      ToUpper(words[1]),
      if n > 2 then ToUpper(words[2]) else "*",
      if n == 4 && |words[3]| <= 1 then "" else if n > 3 then words[3] else "??",
      if n > 4 || (n == 4 && |words[3]| <= 1) then DataType(words[n - 1]) else All,
      n == 4 && |words[3]| <= 1)
  }

  lemma TokensAreWords(s: string)
    requires OnlySpaces(Trim(s)) && Trim(s) != []
    ensures Split(Collapsed(Trim(s)), BLANKS) == Words(s)
    ensures Collapsed(Trim(s)) != []
  {
    TrimKeepsWords(s);
    SplitCollapsedIsWords(Trim(s));
    CollapsedHasNoPair(Trim(s));
  }

  /** What becomes of tokens that are words. */
  lemma ParsesTokens(s: string, words: seq<string>)
    requires Collapsed(Trim(s)) != [] && Split(Collapsed(Trim(s)), BLANKS) == words
    requires forall i :: 0 <= i < |words| ==> IsWord(words[i])
    ensures Parsed(s).Ok? <==> |words| >= 2 && |words[0]| == 2
    ensures Parsed(s).Ok? ==> Parsed(s).value == OfWords(words)
  {
    forall i | 0 <= i < |words| ensures Trim(words[i]) == words[i] {
      assert IsWord(words[i]);
      TrimWord(words[i]);
    }
    assert ToUpper("*") == "*";
    if |words| >= 2 {
      assert IsWord(words[1]);
      TwoWordsAreLong(Collapsed(Trim(s)), words);
    }
  }

  /** When spaces are the only white space inside the string, parsing depends on
      its words alone.  It succeeds exactly when there are at least two and the
      first has length two. */
  lemma ParsesItsWords(s: string)
    requires OnlySpaces(Trim(s))
    ensures Parsed(s).Ok? <==> |Words(s)| >= 2 && |Words(s)[0]| == 2
    ensures Parsed(s).Ok? ==> Parsed(s).value == OfWords(Words(s))
  {
    TrimKeepsWords(s);
    if Trim(s) != [] {
      TokensAreWords(s);
      WordsAreWords(s);
      ParsesTokens(s, Words(s));
    }
  }

  /** Words may as well be separated by single tabs. */
  lemma ParsesWritten(words: seq<string>, between: seq<char>)
    requires |words| == |between| + 1 && forall i :: 0 <= i < |words| ==> IsWord(words[i])
    requires forall i :: 0 <= i < |between| ==> between[i] == ' ' || between[i] == '\t'
    ensures var r := Parsed(Written(words, between));
      && (r.Ok? <==> |words| >= 2 && |words[0]| == 2)
      && (r.Ok? ==> r.value == OfWords(words))
  {
    var s := Written(words, between);
    WrittenHasNoPair(words, between);
    NothingToCollapse(s);
    TrimmedAlready(s);
    forall i | 0 <= i < |words| ensures NoneIn(words[i], BLANKS) {
      assert IsWord(words[i]);
    }
    SplitOfWritten(words, between, BLANKS);
    ParsesTokens(s, words);
  }

  lemma TrimmedAlready(s: string)
    requires s != [] && !IsSpace(s[0]) && !IsSpace(s[|s| - 1])
    ensures Trim(s) == s
  {
  }

  lemma {:induction false} WrittenHasNoPair(words: seq<string>, between: seq<char>)
    requires |words| == |between| + 1 && forall i :: 0 <= i < |words| ==> IsWord(words[i])
    requires AllIn(between, BLANKS)
    ensures var s := Written(words, between);
      && s != [] && !IsSpace(s[0]) && !IsSpace(s[|s| - 1])
      && forall k :: 0 < k < |s| ==> !(s[k - 1] == ' ' && s[k] == ' ')
  {
    assert IsWord(words[0]);
    if between != [] {
      WrittenHasNoPair(words[1..], between[1..]);
      var w, rest := words[0], Written(words[1..], between[1..]);
      var s := Written(words, between);
      assert s == w + [between[0]] + rest;
      assert forall k :: |w| < k < |s| ==> s[k] == rest[k - |w| - 1];
      assert forall k :: 0 <= k < |w| ==> s[k] == w[k];
    }
  }

  lemma {:induction false} NothingToCollapse(s: string)
    requires forall k :: 0 < k < |s| ==> !(s[k - 1] == ' ' && s[k] == ' ')
    ensures Collapsed(s) == s
  {
    if |s| >= 2 {
      assert forall k :: 0 < k < |s[1..]| ==> s[1..][k - 1] == s[k] && s[1..][k] == s[k + 1];
      NothingToCollapse(s[1..]);
    }
  }

  lemma TwoWordsAreLong(s: string, words: seq<string>)
    requires Split(s, BLANKS) == words && |words| >= 2 && IsWord(words[0])
    ensures |s| > 1
  {
  }

  // ----- Printing -----

  function TypeLetter(kind: Type): char {
    match kind
    case All => '*'
    case Data => 'D'
    case Event => 'E'
    case Calibration => 'C'
    case Blockette => 'B'
    case Timing => 'T'
    case Log => 'L'
  }

  /** Neither a location nor a channel is set. */
  predicate Bare(s: Selector) {
    s.locationCode == [] && s.channel == []
  }

  /** The location as printed: wild cards if none is set and one is wanted. */
  function Place(s: Selector): string {
    if s.locationCode != [] then s.locationCode else if s.noLocationCode || Bare(s) then [] else "??"
  }

  /** The channel as printed. */
  function Channel(s: Selector): string {
    if s.channel == [] then "*" else s.channel
  }

  function LocationChannel(s: Selector): string {
    if Bare(s) then [] else Place(s) + Channel(s)
  }

  /** What getSelector prints. */
  function Printed(s: Selector): string {
    var place := LocationChannel(s);
    if place == [] then (if s.kind.All? then [] else ['*', '.', TypeLetter(s.kind)])
    else place + ['.', TypeLetter(s.kind)]
  }

  /** Five words written out with single spaces parse back to location and
      upper-case channel, with .D for data and .* otherwise. */
  lemma FiveWordsRoundTrip(network: string, station: string, channel: string, location: string, letter: string)
    requires IsWord(network) && IsWord(station) && IsWord(channel) && IsWord(location) && IsWord(letter)
    requires |network| == 2
    ensures var r := Parsed(Joined([network, station, channel, location, letter]));
      && r.Ok? && r.value.network == ToUpper(network) && r.value.station == ToUpper(station)
      && r.value.locationCode == location
      && Printed(r.value) == location + ToUpper(channel) + (if letter == "D" || letter == "d" then ".D" else ".*")
  {
    var words := [network, station, channel, location, letter];
    WordsOfJoined(words);
    JoinedOnlySpaces(words);
    ParsesItsWords(Joined(words));
    assert OfWords(words).locationCode == location && ToUpper(channel) != [];
  }

  /** With four words the last is a location code exactly when it is longer than
      one character; otherwise it is a type and no location is asked for. */
  lemma FourWordsAmbiguity(network: string, station: string, channel: string, last: string)
    requires IsWord(network) && IsWord(station) && IsWord(channel) && IsWord(last)
    requires |network| == 2
    ensures var r := Parsed(Joined([network, station, channel, last]));
      && r.Ok? && r.value.network == ToUpper(network) && r.value.station == ToUpper(station)
      && r.value.locationCode == (if |last| > 1 then last else "")
      && Printed(r.value) ==
           if |last| > 1 then last + ToUpper(channel) + ".*"
           else ToUpper(channel) + (if last == "D" || last == "d" then ".D" else ".*")
  {
    var words := [network, station, channel, last];
    WordsOfJoined(words);
    JoinedOnlySpaces(words);
    ParsesItsWords(Joined(words));
    assert ToUpper(channel) != [];
    if |last| <= 1 {
      assert [] + ToUpper(channel) == ToUpper(channel);
    }
  }

  lemma {:induction false} JoinedOnlySpaces(words: seq<string>)
    requires forall i :: 0 <= i < |words| ==> IsWord(words[i])
    ensures OnlySpaces(Joined(words))
    ensures Trim(Joined(words)) == Joined(words)
  {
    if |words| == 1 {
      assert IsWord(words[0]);
    } else if |words| > 1 {
      assert IsWord(words[0]) && IsWord(words[1]);
      JoinedOnlySpaces(words[1..]);
      JoinedEnds(words);
    }
  }

  lemma {:induction false} JoinedEnds(words: seq<string>)
    requires words != [] && forall i :: 0 <= i < |words| ==> IsWord(words[i])
    ensures var s := Joined(words); s != [] && !IsSpace(s[0]) && !IsSpace(s[|s| - 1])
  {
    assert IsWord(words[0]);
    if |words| > 1 {
      JoinedEnds(words[1..]);
    }
  }

  /** A bare selector of any type prints nothing at all. */
  predicate PrintsNothing(s: Selector) {
    Bare(s) && s.kind.All?
  }

  lemma PrintedParts(s: Selector)
    ensures PrintsNothing(s) <==> Printed(s) == []
    ensures !PrintsNothing(s) ==> Printed(s) == Place(s) + Channel(s) + ['.', TypeLetter(s.kind)]
  {
    if Bare(s) {
      assert Place(s) + Channel(s) == "*";
    }
  }

  lemma TextsEqualIff(p: string, k: char, q: string, l: char)
    ensures p + ['.', k] == q + ['.', l] <==> p == q && k == l
  {
    if p + ['.', k] == q + ['.', l] {
      var n := |p + ['.', k]|;
      assert (p + ['.', k])[n - 1] == k && (q + ['.', l])[n - 1] == l;
      assert p == (p + ['.', k])[..n - 2] == q;
    }
  }

  /** Two selectors print alike exactly when they are of one type and location and
      channel read the same when run together. */
  lemma PrintedAlikeIff(a: Selector, b: Selector)
    ensures Printed(a) == Printed(b) <==>
              if PrintsNothing(a) || PrintsNothing(b) then PrintsNothing(a) && PrintsNothing(b)
              else a.kind == b.kind && Place(a) + Channel(a) == Place(b) + Channel(b)
  {
    PrintedParts(a);
    PrintedParts(b);
    TextsEqualIff(Place(a) + Channel(a), TypeLetter(a.kind), Place(b) + Channel(b), TypeLetter(b.kind));
  }

  /** Of selectors that print alike, location and channel as printed agree exactly when
      their printed locations are equally long: among the printed parts a collision is
      nothing but a location that runs on into the channel. */
  lemma PrintedIsUniqueIff(a: Selector, b: Selector)
    requires Printed(a) == Printed(b)
    ensures a.kind == b.kind
    ensures Place(a) == Place(b) && Channel(a) == Channel(b) <==> |Place(a)| == |Place(b)|
  {
    PrintedAlikeIff(a, b);
    var p, q := Place(a) + Channel(a), Place(b) + Channel(b);
    if |Place(a)| == |Place(b)| {
      assert p == q;
      assert Place(a) == p[..|Place(a)|] && Place(b) == q[..|Place(b)|];
      assert Channel(a) == p[|Place(a)|..] && Channel(b) == q[|Place(b)|..];
    }
  }

  /** The fields behind the printed parts agree exactly when, besides, wild cards do
      not stand for a field that is not set on one side and is spelled out on the
      other. */
  lemma FieldsAreUniqueIff(a: Selector, b: Selector)
    requires Printed(a) == Printed(b)
    ensures a.kind == b.kind
    ensures a.locationCode == b.locationCode && a.channel == b.channel <==>
              && |Place(a)| == |Place(b)|
              && (a.locationCode == [] <==> b.locationCode == [])
              && (a.channel == [] <==> b.channel == [])
  {
    PrintedIsUniqueIff(a, b);
    if a.locationCode == b.locationCode && a.channel == b.channel {
      SameFieldsSamePlace(a, b);
    }
  }

  /** Fields that agree print in equally long places, even if one selector asks for no
      location and the other for any. */
  lemma SameFieldsSamePlace(a: Selector, b: Selector)
    requires Printed(a) == Printed(b) && a.locationCode == b.locationCode && a.channel == b.channel
    ensures |Place(a)| == |Place(b)|
  {
    PrintedAlikeIff(a, b);
    assert |Place(a) + Channel(a)| == |Place(a)| + |Channel(a)| && |Place(b) + Channel(b)| == |Place(b)| + |Channel(b)|;
  }

  /** Each of the three conditions is needed: selectors that print alike and meet the
      other two. */
  lemma FieldsCanCollide()
    ensures var a, b := WithLocation(UNSET, "", "01", All), WithLocation(UNSET, "*", "01", All);
      && Printed(a) == Printed(b) && a.channel != b.channel
      && |Place(a)| == |Place(b)| && (a.locationCode == [] <==> b.locationCode == [])
    ensures var a, b := WithLocation(UNSET, "HHZ", "", All), WithLocation(UNSET, "HHZ", "??", All);
      && Printed(a) == Printed(b) && a.locationCode != b.locationCode
      && |Place(a)| == |Place(b)| && (a.channel == [] <==> b.channel == [])
    ensures var a, b := WithLocation(UNSET, "HHZ", "01", All), WithLocation(UNSET, "1HHZ", "0", All);
      && Printed(a) == Printed(b) && a.locationCode != b.locationCode
      && (a.locationCode == [] <==> b.locationCode == []) && (a.channel == [] <==> b.channel == [])
  {
    assert ToUpper("") == "" && ToUpper("*") == "*" && ToUpper("HHZ") == "HHZ" && ToUpper("1HHZ") == "1HHZ";
    assert "01" + "HHZ" == "01HHZ" == "0" + "1HHZ";
  }

  /** A text that parses, with only spaces inside, names what is printed: its location
      and channel are the printed ones. */
  lemma ParsedPrintsItsFields(text: string)
    requires OnlySpaces(Trim(text)) && Parsed(text).Ok?
    ensures var s := Parsed(text).value; Place(s) == s.locationCode && Channel(s) == s.channel && !Bare(s)
  {
    ParsesItsWords(text);
    WordsAreWords(text);
    var words := Words(text);
    assert |words| > 2 ==> IsWord(words[2]);
    assert |words| > 3 ==> IsWord(words[3]);
  }

  /** So of such texts that print alike, the selectors have the same location and channel
      exactly when their location codes are equally long. */
  lemma ParsedIsUniqueIff(text: string, other: string)
    requires OnlySpaces(Trim(text)) && Parsed(text).Ok? && OnlySpaces(Trim(other)) && Parsed(other).Ok?
    requires Printed(Parsed(text).value) == Printed(Parsed(other).value)
    ensures var a, b := Parsed(text).value, Parsed(other).value;
      && a.kind == b.kind
      && (a.locationCode == b.locationCode && a.channel == b.channel <==> |a.locationCode| == |b.locationCode|)
  {
    ParsedPrintsItsFields(text);
    ParsedPrintsItsFields(other);
    PrintedIsUniqueIff(Parsed(text).value, Parsed(other).value);
  }

  /** In particular, the printed form determines all three when both locations have
      two characters and both channels are given. */
  lemma PrintedIsUnique(a: Selector, b: Selector)
    requires |a.locationCode| == 2 && |b.locationCode| == 2
    requires a.channel != [] && b.channel != []
    requires Printed(a) == Printed(b)
    ensures a.locationCode == b.locationCode && a.channel == b.channel && a.kind == b.kind
  {
    PrintedIsUniqueIff(a, b);
  }

  lemma WordsRunTogether(location: string, channel: string)
    requires IsWord(location) && IsWord(channel)
    ensures IsWord(location + channel) && ToUpper(location + channel) == ToUpper(location) + ToUpper(channel)
  {
    forall i | 0 <= i < |location + channel| ensures !IsSpace((location + channel)[i]) {
      assert (location + channel)[i] == if i < |location| then location[i] else channel[i - |location|];
    }
  }

  /** Such collisions happen between texts that parse: for any upper-case location,
      a channel that begins with it and the location on its own, as in the texts
      UU FORK 01HHZ D and UU FORK HHZ 01 D. */
  lemma TextsCanCollide(network: string, station: string, channel: string, location: string)
    requires IsWord(network) && IsWord(station) && IsWord(channel) && IsWord(location)
    requires |network| == 2 && ToUpper(location) == location
    ensures var a := Parsed(Joined([network, station, location + channel, "D"]));
      var b := Parsed(Joined([network, station, channel, location, "D"]));
      && a.Ok? && b.Ok? && a.value.locationCode != b.value.locationCode
      && a.value.network == b.value.network == ToUpper(network) && a.value.station == b.value.station
      && Printed(a.value) == Printed(b.value)
  {
    WordsRunTogether(location, channel);
    FourWordsAmbiguity(network, station, location + channel, "D");
    FiveWordsRoundTrip(network, station, channel, location, "D");
  }

  // ----- The class -----

  class StreamSelector {
    var network: string
    var station: string
    var channel: string
    var locationCode: string
    var kind: Type
    var noLocationCode: bool

    function Value(): Selector
      reads this
    {
      Selector(network, station, channel, locationCode, kind, noLocationCode)
    }

    constructor ()
      ensures Value() == UNSET
    {
      network, station, channel, locationCode, kind, noLocationCode := "", "*", "", "", All, false;
    }

    method SetNetwork(value: string) returns (error: Option<SelectorError>)
      modifies this
      ensures error.None? ==> WithNetwork(old(Value()), value) == Ok(Value())
      ensures error.Some? ==> WithNetwork(old(Value()), value) == Err(error.value) && Value() == old(Value())
    {
      if |value| != 2 {
        return Some(BadNetwork);
      }
      network := value;
      network := ToUpper(network);
      error := None;
    }

    method SetStation(value: string) returns (error: Option<SelectorError>)
      modifies this
      ensures error.None? ==> WithStation(old(Value()), value) == Ok(Value())
      ensures error.Some? ==> WithStation(old(Value()), value) == Err(error.value) && Value() == old(Value())
    {
      if value == [] {
        return Some(EmptyStation);
      }
      station := value;
      station := ToUpper(station);
      error := None;
    }

    method SetSelector(value: string, newKind: Type)
      modifies this
      ensures Value() == WithChannel(old(Value()), value, newKind)
    {
      channel := value;
      channel := ToUpper(channel);
      locationCode := "";
      noLocationCode := true;
      kind := newKind;
    }

    method SetSelectorWithLocation(value: string, newLocation: string, newKind: Type)
      modifies this
      ensures Value() == WithLocation(old(Value()), value, newLocation, newKind)
    {
      channel := value;
      channel := ToUpper(channel);
      locationCode := newLocation;
      noLocationCode := false;
      kind := newKind;
    }

    /** getSelector, built piece by piece. */
    method GetSelector() returns (selector: string)
      ensures selector == Printed(Value())
    {
      var locationChannel: string := "";
      if locationCode != [] || channel != [] {
        if locationCode == [] {
          locationChannel := "??";
          if noLocationCode {
            locationChannel := "";
          }
        } else {
          locationChannel := locationCode;
        }
        if channel == [] {
          locationChannel := locationChannel + "*";
        } else {
          locationChannel := locationChannel + channel;
        }
      }
      var empty := locationChannel == [];
      match kind
      case All => selector := if empty then "" else locationChannel + ".*";
      case Data => selector := if empty then "*.D" else locationChannel + ".D";
      case Timing => selector := if empty then "*.T" else locationChannel + ".T";
      case Log => selector := if empty then "*.L" else locationChannel + ".L";
      case Event => selector := if empty then "*.E" else locationChannel + ".E";
      case Blockette => selector := if empty then "*.B" else locationChannel + ".B";
      case Calibration => selector := if empty then "*.C" else locationChannel + ".C";
    }

    /** fromString.  Its token list is only read once the string is known not to be
        empty, and at(1) throws when there is one token. */
    static method FromString(streamSelector: string) returns (result: Result<StreamSelector, SelectorError>)
      ensures result.Err? ==> Parsed(streamSelector) == Err(result.error)
      ensures result.Ok? ==> fresh(result.value) && Parsed(streamSelector) == Ok(result.value.Value())
    {
      var splitSelector := CollapseSpaces(Trim(streamSelector));
      var thisSelector := Split(splitSelector, BLANKS);
      var selector := new StreamSelector();
      if splitSelector == [] {
        return Err(EmptySelector);
      }
      var error := selector.SetNetwork(Trim(thisSelector[0]));
      if error.Some? {
        return Err(error.value);
      }
      if |splitSelector| > 1 {
        if |thisSelector| < 2 {
          return Err(MissingStation);
        }
        error := selector.SetStation(Trim(thisSelector[1]));
        if error.Some? {
          return Err(error.value);
        }
      }
      var channel, locationCode, dataType := "*", "??", All;
      if |thisSelector| > 2 {
        channel := Trim(thisSelector[2]);
      }
      if |thisSelector| > 4 {
        locationCode := Trim(thisSelector[3]);
        dataType := DataType(Trim(thisSelector[|thisSelector| - 1]));
        selector.SetSelectorWithLocation(channel, locationCode, dataType);
      } else if |thisSelector| == 4 {
        locationCode := thisSelector[3];
        if |locationCode| > 1 {
          selector.SetSelectorWithLocation(channel, locationCode, dataType);
        } else {
          dataType := DataType(Trim(thisSelector[|thisSelector| - 1]));
          selector.SetSelector(channel, dataType);
        }
      } else {
        selector.SetSelectorWithLocation(channel, locationCode, dataType);
      }
      result := Ok(selector);
    }

    /** The erasing loop of fromString. */
    static method CollapseSpaces(text: string) returns (s: string)
      ensures s == Collapsed(text)
      ensures forall i :: 0 < i < |s| ==> !(s[i - 1] == ' ' && s[i] == ' ')
    {
      s := text;
      var k := 1;
      while k < |s|
        invariant if s == [] then k == 1 && text == [] else 1 <= k <= |s| && PartCollapsed(s, k - 1) == Collapsed(text)
        decreases |s| - k
      {
        if s[k - 1] == s[k] && s[k] == ' ' {
          CollapseErases(s, k);
          s := s[..k] + s[k + 1..];
        } else {
          CollapseAdvances(s, k);
          k := k + 1;
        }
      }
      if s != [] {
        CollapseEnds(s);
      }
      CollapsedHasNoPair(text);
    }
  }
}
