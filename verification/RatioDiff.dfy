/** Comparing local prices with what upstream channels report: the nested difference table that
    the price-sync page shows. */
module RatioDiff {
  import opened Lists

  const EPSILON: real := 0.000000001

  /** A decoded JSON value, as far as the comparison looks at it. */
  datatype Value = Null | Num(num: real) | Text(text: string)

  /** The marker for "no difference"; an upstream string spelled the same way is taken for it. */
  const SAME: Value := Text("same")

  datatype RatioType = ModelRatio | CompletionRatio | CacheRatio | ModelPrice

  const RATIO_TYPES: seq<RatioType> := [ModelRatio, CompletionRatio, CacheRatio, ModelPrice]

  type LocalData = map<RatioType, map<string, real>>

  datatype Upstream = Upstream(name: string, data: map<RatioType, map<string, Value>>)

  datatype Item = Item(current: Value, upstreams: map<string, Value>, confidence: map<string, bool>)

  type Differences = map<string, map<RatioType, Item>>

  predicate NearlyEqual(a: real, b: real) {
    if a > b then a - b < EPSILON else b - a < EPSILON
  }

  predicate ValuesEqual(a: Value, b: Value) {
    if a.Num? && b.Num? then NearlyEqual(a.num, b.num) else a == b
  }

  function LocalValue(local: LocalData, t: RatioType, m: string): Value {
    if t in local && m in local[t] then Num(local[t][m]) else Null
  }

  predicate Offers(u: Upstream, t: RatioType, m: string) {
    t in u.data && m in u.data[t]
  }

  /** What the table shows for one channel. */
  function Cell(current: Value, u: Upstream, t: RatioType, m: string): Value {
    if Offers(u, t, m) then
      if ValuesEqual(current, u.data[t][m]) then SAME else u.data[t][m]
    else if current == Null then SAME
    else Null
  }

  /** The default pair 37.5 and 1.0 of a pricing endpoint is not trusted. */
  predicate Trusted(u: Upstream, m: string) {
    !(Offers(u, ModelRatio, m) && Offers(u, CompletionRatio, m)
      && u.data[ModelRatio][m] == Num(37.5) && u.data[CompletionRatio][m] == Num(1.0))
  }

  // ----- What each pass computes, whatever the order of iteration

  function ModelsOf(data: map<RatioType, map<string, Value>>, types: seq<RatioType>): set<string> {
    set t, m | t in types && t in data && m in data[t] :: m
  }

  function LocalModelsOf(local: LocalData, types: seq<RatioType>): set<string> {
    set t, m | t in types && t in local && m in local[t] :: m
  }

  lemma EveryType(t: RatioType)
    ensures t in RATIO_TYPES
  {
    match t {
      case ModelRatio => assert RATIO_TYPES[0] == t;
      case CompletionRatio => assert RATIO_TYPES[1] == t;
      case CacheRatio => assert RATIO_TYPES[2] == t;
      case ModelPrice => assert RATIO_TYPES[3] == t;
    }
  }

  function UpstreamModels(channels: seq<Upstream>): (r: set<string>)
    ensures forall m :: m in r <==> exists u :: u in channels && m in ModelsOf(u.data, RATIO_TYPES)
  {
    set u, m | u in channels && m in ModelsOf(u.data, RATIO_TYPES) :: m
  }

  function AllModels(local: LocalData, channels: seq<Upstream>): (r: set<string>)
    ensures forall t, m :: t in local && m in local[t] ==> m in r
    ensures forall u, t, m :: u in channels && Offers(u, t, m) ==> m in r
  {
    assert forall t: RatioType :: t in RATIO_TYPES by {
      forall t: RatioType ensures t in RATIO_TYPES {
        EveryType(t);
      }
    }
    LocalModelsOf(local, RATIO_TYPES) + UpstreamModels(channels)
  }

  function Names(channels: seq<Upstream>): (r: set<string>)
    ensures forall n :: n in r <==> exists u :: u in channels && u.name == n
  {
    set u | u in channels :: u.name
  }

  /** The channel a name stands for: the last one carrying it. */
  function Named(channels: seq<Upstream>, n: string): (u: Upstream)
    requires n in Names(channels)
    ensures u in channels && u.name == n
  {
    var last := channels[|channels| - 1];
    assert channels == channels[..|channels| - 1] + [last];
    if last.name == n then last else Named(channels[..|channels| - 1], n)
  }

  function Row(current: Value, channels: seq<Upstream>, t: RatioType, m: string): (r: map<string, Value>)
    ensures r.Keys == Names(channels)
    ensures forall n :: n in Names(channels) ==> r[n] == Cell(current, Named(channels, n), t, m)
  {
    map n | n in Names(channels) :: Cell(current, Named(channels, n), t, m)
  }

  function Confidence(channels: seq<Upstream>, m: string): (r: map<string, bool>)
    ensures r.Keys == Names(channels)
    ensures forall n :: n in Names(channels) ==> r[n] == Trusted(Named(channels, n), m)
  {
    map n | n in Names(channels) :: Trusted(Named(channels, n), m)
  }

  predicate SomeOffer(channels: seq<Upstream>, t: RatioType, m: string) {
    exists u :: u in channels && Offers(u, t, m)
  }

  predicate SomeDifference(current: Value, channels: seq<Upstream>, t: RatioType, m: string) {
    exists u :: u in channels && Offers(u, t, m) && !ValuesEqual(current, u.data[t][m])
  }

  predicate Included(local: LocalData, channels: seq<Upstream>, t: RatioType, m: string) {
    var current := LocalValue(local, t, m);
    if current != Null then SomeDifference(current, channels, t, m) else SomeOffer(channels, t, m)
  }

  function RawItem(local: LocalData, channels: seq<Upstream>, t: RatioType, m: string): Item {
    var current := LocalValue(local, t, m);
    Item(current, Row(current, channels, t, m), Confidence(channels, m))
  }

  function RawModel(local: LocalData, channels: seq<Upstream>, types: seq<RatioType>, m: string): (r: map<RatioType, Item>)
    ensures forall t :: t in r <==> t in types && Included(local, channels, t, m)
    ensures forall t :: t in r ==> r[t] == RawItem(local, channels, t, m)
  {
    map t | t in types && Included(local, channels, t, m) :: RawItem(local, channels, t, m)
  }

  function Raw(local: LocalData, channels: seq<Upstream>, models: set<string>): (r: Differences)
    ensures forall m :: m in r <==> m in models && RawModel(local, channels, RATIO_TYPES, m) != map[]
    ensures forall m :: m in r ==> r[m] == RawModel(local, channels, RATIO_TYPES, m)
  {
    map m | m in models && RawModel(local, channels, RATIO_TYPES, m) != map[] :: RawModel(local, channels, RATIO_TYPES, m)
  }

  predicate IsDifference(v: Value) {
    v != Null && v != SAME
  }

  predicate ShowsDifference(item: Item, n: string) {
    n in item.upstreams && IsDifference(item.upstreams[n])
  }

  function ShownBy(item: Item): (r: set<string>)
    ensures forall n :: n in r <==> ShowsDifference(item, n)
  {
    set n | n in item.upstreams && ShowsDifference(item, n)
  }

  /** The channels with a real difference somewhere in the table. */
  function Differing(diffs: Differences): (r: set<string>)
    ensures forall n :: n in r <==> exists m, t :: m in diffs && t in diffs[m] && ShowsDifference(diffs[m][t], n)
  {
    set m, t, n | m in diffs && t in diffs[m] && n in diffs[m][t].upstreams && ShowsDifference(diffs[m][t], n) :: n
  }

  function PruneItem(item: Item, names: set<string>): (r: Item)
    ensures r.current == item.current
    ensures r.upstreams.Keys == item.upstreams.Keys * names
    ensures r.confidence.Keys == item.confidence.Keys - (item.upstreams.Keys - names)
    ensures forall n :: n in r.upstreams ==> r.upstreams[n] == item.upstreams[n]
    ensures forall n :: n in r.confidence ==> r.confidence[n] == item.confidence[n]
  {
    Item(item.current,
         map n | n in item.upstreams && n in names :: item.upstreams[n],
         map n | n in item.confidence && (n in item.upstreams ==> n in names) :: item.confidence[n])
  }

  predicate Worthwhile(item: Item) {
    exists n :: n in item.upstreams && item.upstreams[n] != SAME
  }

  function PruneModel(ratios: map<RatioType, Item>, names: set<string>): (r: map<RatioType, Item>)
    ensures forall t :: t in r <==> t in ratios && Worthwhile(PruneItem(ratios[t], names))
    ensures forall t :: t in r ==> r[t] == PruneItem(ratios[t], names)
  {
    map t | t in ratios && Worthwhile(PruneItem(ratios[t], names)) :: PruneItem(ratios[t], names)
  }

  function Prune(diffs: Differences, names: set<string>): (r: Differences)
    ensures forall m :: m in r <==> m in diffs && PruneModel(diffs[m], names) != map[]
    ensures forall m :: m in r ==> r[m] == PruneModel(diffs[m], names)
  {
    map m | m in diffs && PruneModel(diffs[m], names) != map[] :: PruneModel(diffs[m], names)
  }

  function Table(local: LocalData, channels: seq<Upstream>): Differences {
    var raw := Raw(local, channels, AllModels(local, channels));
    Prune(raw, Differing(raw))
  }

  // ----- What the table means

  ghost predicate Numeric(channels: seq<Upstream>) {
    forall u, t, m :: u in channels && Offers(u, t, m) ==> u.data[t][m].Num?
  }

  ghost predicate DistinctNames(channels: seq<Upstream>) {
    forall u, v :: u in channels && v in channels && u.name == v.name ==> u == v
  }

  /** A channel offers a price here that the local table lacks or that is at least 1e-9 away. */
  predicate Disagrees(local: LocalData, u: Upstream, t: RatioType, m: string) {
    Offers(u, t, m) && !ValuesEqual(LocalValue(local, t, m), u.data[t][m])
  }

  ghost predicate DisagreesSomewhere(local: LocalData, u: Upstream) {
    exists t, m :: Disagrees(local, u, t, m)
  }

  predicate Listed(table: Differences, t: RatioType, m: string) {
    m in table && t in table[m]
  }

  lemma RawListed(local: LocalData, channels: seq<Upstream>, t: RatioType, m: string)
    ensures var raw := Raw(local, channels, AllModels(local, channels));
      && (Listed(raw, t, m) <==> Included(local, channels, t, m))
      && (Listed(raw, t, m) ==> raw[m][t] == RawItem(local, channels, t, m))
  {
    EveryType(t);
    var model := RawModel(local, channels, RATIO_TYPES, m);
    if Included(local, channels, t, m) {
      assert t in model;
    }
  }

  lemma PruneListed(diffs: Differences, names: set<string>, t: RatioType, m: string)
    ensures var r := Prune(diffs, names);
      && (Listed(r, t, m) <==> Listed(diffs, t, m) && Worthwhile(PruneItem(diffs[m][t], names)))
      && (Listed(r, t, m) ==> r[m][t] == PruneItem(diffs[m][t], names))
  {
    if Listed(diffs, t, m) && Worthwhile(PruneItem(diffs[m][t], names)) {
      assert t in PruneModel(diffs[m], names);
    }
  }

  /** What an item shows for a channel: its price where it disagrees, "same" where it agrees or
      neither side has a price, nothing where only the local side has one. */
  function Shown(local: LocalData, u: Upstream, t: RatioType, m: string): Value {
    if Disagrees(local, u, t, m) then u.data[t][m]
    else if Offers(u, t, m) || LocalValue(local, t, m) == Null then SAME
    else Null
  }

  /** A channel has a price somewhere that disagrees and is neither null nor the marker. */
  ghost predicate DiffersSomewhere(local: LocalData, u: Upstream) {
    exists t, m :: Disagrees(local, u, t, m) && IsDifference(u.data[t][m])
  }

  lemma NamedDisagreement(local: LocalData, channels: seq<Upstream>, u: Upstream, t: RatioType, m: string)
    requires u in channels && Disagrees(local, u, t, m)
    ensures Included(local, channels, t, m)
  {
  }

  lemma RawItemShows(local: LocalData, channels: seq<Upstream>, t: RatioType, m: string, n: string)
    requires n in Names(channels)
    ensures var item := RawItem(local, channels, t, m);
      && n in item.upstreams && n in item.confidence
      && item.upstreams[n] == Shown(local, Named(channels, n), t, m)
      && item.confidence[n] == Trusted(Named(channels, n), m)
  {
  }

  /** A name counts as differing exactly when its channel (the last one of that name) does. */
  lemma DifferingMeans(local: LocalData, channels: seq<Upstream>, n: string)
    ensures n in Differing(Raw(local, channels, AllModels(local, channels))) <==>
      n in Names(channels) && DiffersSomewhere(local, Named(channels, n))
  {
    var raw := Raw(local, channels, AllModels(local, channels));
    if n in Names(channels) && DiffersSomewhere(local, Named(channels, n)) {
      var u := Named(channels, n);
      var t, m :| Disagrees(local, u, t, m) && IsDifference(u.data[t][m]);
      NamedDisagreement(local, channels, u, t, m);
      RawListed(local, channels, t, m);
      RawItemShows(local, channels, t, m, n);
      assert ShowsDifference(raw[m][t], n);
    }
    if n in Differing(raw) {
      var m, t :| m in raw && t in raw[m] && ShowsDifference(raw[m][t], n);
      RawListed(local, channels, t, m);
      RawItemShows(local, channels, t, m, n);
      assert Disagrees(local, Named(channels, n), t, m);
    }
  }

  /** What is left of the item when the columns of channels that differ nowhere are deleted. */
  function PrunedItem(local: LocalData, channels: seq<Upstream>, t: RatioType, m: string): Item {
    PruneItem(RawItem(local, channels, t, m), Differing(Raw(local, channels, AllModels(local, channels))))
  }

  lemma ListedItem(local: LocalData, channels: seq<Upstream>, t: RatioType, m: string)
    ensures var item := PrunedItem(local, channels, t, m);
      && (Listed(Table(local, channels), t, m) <==> Included(local, channels, t, m) && Worthwhile(item))
      && (Listed(Table(local, channels), t, m) ==> Table(local, channels)[m][t] == item)
  {
    var raw := Raw(local, channels, AllModels(local, channels));
    RawListed(local, channels, t, m);
    PruneListed(raw, Differing(raw), t, m);
  }

  predicate ShowsOther(item: Item, n: string) {
    n in item.upstreams && item.upstreams[n] != SAME
  }

  lemma WorthwhileMeans(item: Item)
    ensures Worthwhile(item) <==> exists n :: ShowsOther(item, n)
  {
    if Worthwhile(item) {
      var n :| n in item.upstreams && item.upstreams[n] != SAME;
      assert ShowsOther(item, n);
    }
  }

  /** A channel that differs somewhere, and shows anything but "same" here. */
  ghost predicate Speaks(local: LocalData, channels: seq<Upstream>, t: RatioType, m: string, n: string) {
    && n in Names(channels) && DiffersSomewhere(local, Named(channels, n))
    && Shown(local, Named(channels, n), t, m) != SAME
  }

  lemma PrunedSpeaks(local: LocalData, channels: seq<Upstream>, t: RatioType, m: string, n: string)
    ensures ShowsOther(PrunedItem(local, channels, t, m), n) <==> Speaks(local, channels, t, m, n)
  {
    DifferingMeans(local, channels, n);
    if n in Names(channels) {
      RawItemShows(local, channels, t, m, n);
    }
  }

  lemma WorthwhileSpeaks(item: Item, local: LocalData, channels: seq<Upstream>, t: RatioType, m: string)
    requires forall n :: ShowsOther(item, n) <==> Speaks(local, channels, t, m, n)
    ensures Worthwhile(item) <==> exists n :: Speaks(local, channels, t, m, n)
  {
    WorthwhileMeans(item);
    if n :| Speaks(local, channels, t, m, n) {
      assert ShowsOther(item, n);
    }
  }

  lemma PrunedWorthwhile(local: LocalData, channels: seq<Upstream>, t: RatioType, m: string)
    ensures Worthwhile(PrunedItem(local, channels, t, m)) <==> exists n :: Speaks(local, channels, t, m, n)
  {
    forall n ensures ShowsOther(PrunedItem(local, channels, t, m), n) <==> Speaks(local, channels, t, m, n) {
      PrunedSpeaks(local, channels, t, m, n);
    }
    WorthwhileSpeaks(PrunedItem(local, channels, t, m), local, channels, t, m);
  }

  /** For every input, repeated names and non-numbers included: a model and ratio type is listed
      exactly when it has something to show at all and some channel that differs somewhere shows
      anything but "same" there. */
  lemma TableShows(local: LocalData, channels: seq<Upstream>, t: RatioType, m: string)
    ensures Listed(Table(local, channels), t, m) <==>
      Included(local, channels, t, m) && exists n :: Speaks(local, channels, t, m, n)
  {
    ListedItem(local, channels, t, m);
    PrunedWorthwhile(local, channels, t, m);
  }

  /** For every input a listed item shows exactly the channels that differ somewhere, each with its
      price, the marker "same" or nothing, and their confidence. */
  lemma ItemShows(local: LocalData, channels: seq<Upstream>, t: RatioType, m: string, n: string)
    requires Listed(Table(local, channels), t, m)
    ensures var item := Table(local, channels)[m][t];
      && item.current == LocalValue(local, t, m)
      && item.confidence.Keys == item.upstreams.Keys
      && (n in item.upstreams <==> n in Names(channels) && DiffersSomewhere(local, Named(channels, n)))
      && (n in item.upstreams ==> item.upstreams[n] == Shown(local, Named(channels, n), t, m))
      && (n in item.upstreams ==> item.confidence[n] == Trusted(Named(channels, n), m))
  {
    ListedItem(local, channels, t, m);
    DifferingMeans(local, channels, n);
    if n in Names(channels) {
      RawItemShows(local, channels, t, m, n);
    }
    PruneShows(RawItem(local, channels, t, m), Differing(Raw(local, channels, AllModels(local, channels))));
  }

  lemma PruneShows(item: Item, names: set<string>)
    requires item.upstreams.Keys == item.confidence.Keys
    ensures PruneItem(item, names).confidence.Keys == PruneItem(item, names).upstreams.Keys
  {
  }

  lemma NumbersDiffer(local: LocalData, channels: seq<Upstream>, u: Upstream)
    requires Numeric(channels) && DistinctNames(channels) && u in channels
    ensures u.name in Names(channels) && Named(channels, u.name) == u
    ensures DiffersSomewhere(local, u) <==> DisagreesSomewhere(local, u)
  {
    assert Named(channels, u.name) == u;
    if DisagreesSomewhere(local, u) {
      var t, m :| Disagrees(local, u, t, m);
      assert IsDifference(u.data[t][m]);
    }
  }

  /** A local number and a channel's number count as the same when they are less than 1e-9 apart, either
      way round, and other values when they are equal; otherwise the channel's value is shown. */
  lemma CellMeans(current: Value, u: Upstream, t: RatioType, m: string)
    ensures var cell := Cell(current, u, t, m);
      if t in u.data && m in u.data[t] then
        var offered := u.data[t][m];
        var same := if current.Num? && offered.Num? then -0.000000001 < current.num - offered.num < 0.000000001 else current == offered;
        cell == if same then Text("same") else offered
      else
        cell == if current == Null then Text("same") else Null
  {
  }

  /** A channel has a number here, and the local price is missing or at least 1e-9 away from it. */
  predicate Apart(local: LocalData, u: Upstream, t: RatioType, m: string) {
    t in u.data && m in u.data[t] && u.data[t][m].Num? &&
    if t in local && m in local[t] then
      local[t][m] - u.data[t][m].num >= 0.000000001 || u.data[t][m].num - local[t][m] >= 0.000000001
    else true
  }

  lemma NumbersApart(local: LocalData, u: Upstream, t: RatioType, m: string)
    requires Offers(u, t, m) ==> u.data[t][m].Num?
    ensures Disagrees(local, u, t, m) <==> Apart(local, u, t, m)
  {
  }

  /** For numbers and distinct names the table lists a model and ratio type exactly when some channel's
      number there has no local price within 1e-9. */
  lemma TableIsExact(local: LocalData, channels: seq<Upstream>, t: RatioType, m: string)
    requires Numeric(channels) && DistinctNames(channels)
    ensures Listed(Table(local, channels), t, m) <==> exists u :: u in channels && Apart(local, u, t, m)
  {
    TableDisagrees(local, channels, t, m);
    forall u | u in channels ensures Disagrees(local, u, t, m) <==> Apart(local, u, t, m) {
      NumbersApart(local, u, t, m);
    }
    if u :| u in channels && Apart(local, u, t, m) {
      assert Disagrees(local, u, t, m);
    }
  }

  lemma TableDisagrees(local: LocalData, channels: seq<Upstream>, t: RatioType, m: string)
    requires Numeric(channels) && DistinctNames(channels)
    ensures Listed(Table(local, channels), t, m) <==> exists u :: u in channels && Disagrees(local, u, t, m)
  {
    TableShows(local, channels, t, m);
    if u :| u in channels && Disagrees(local, u, t, m) {
      NumbersDiffer(local, channels, u);
      NamedDisagreement(local, channels, u, t, m);
      assert Speaks(local, channels, t, m, u.name);
    }
    if Included(local, channels, t, m) {
      IncludedDisagrees(local, channels, t, m);
    }
  }

  lemma IncludedDisagrees(local: LocalData, channels: seq<Upstream>, t: RatioType, m: string)
    requires Numeric(channels) && Included(local, channels, t, m)
    ensures exists u :: u in channels && Disagrees(local, u, t, m)
  {
    var u :| u in channels && Offers(u, t, m) && (LocalValue(local, t, m) != Null ==> !ValuesEqual(LocalValue(local, t, m), u.data[t][m]));
    assert Disagrees(local, u, t, m);
  }

  ghost predicate ApartSomewhere(local: LocalData, u: Upstream) {
    exists t, m :: Apart(local, u, t, m)
  }

  lemma NumbersShown(local: LocalData, u: Upstream, t: RatioType, m: string)
    requires Offers(u, t, m) ==> u.data[t][m].Num?
    ensures Shown(local, u, t, m) ==
      if t in u.data && m in u.data[t] then (if Apart(local, u, t, m) then u.data[t][m] else Text("same"))
      else if t in local && m in local[t] then Null
      else Text("same")
  {
    NumbersApart(local, u, t, m);
  }

  lemma TrustMeans(u: Upstream, m: string)
    ensures Trusted(u, m) == !(Reports(u, ModelRatio, m, 37.5) && Reports(u, CompletionRatio, m, 1.0))
  {
  }

  lemma NumbersApartSomewhere(local: LocalData, channels: seq<Upstream>, u: Upstream)
    requires Numeric(channels) && u in channels
    ensures DisagreesSomewhere(local, u) <==> ApartSomewhere(local, u)
  {
    forall t, m ensures Disagrees(local, u, t, m) <==> Apart(local, u, t, m) {
      NumbersApart(local, u, t, m);
    }
  }

  /** And a listed item then shows exactly the channels with such a number somewhere: the number where it
      is one, "same" where it is not or neither side has a price, nothing where only the local side has
      one; and all but those that report 37.5 and 1 as the two ratios of the model are trusted. */
  lemma ItemIsExact(local: LocalData, channels: seq<Upstream>, t: RatioType, m: string, u: Upstream)
    requires Numeric(channels) && DistinctNames(channels) && u in channels
    requires Listed(Table(local, channels), t, m)
    ensures var item := Table(local, channels)[m][t];
      && item.current == (if t in local && m in local[t] then Num(local[t][m]) else Null)
      && item.confidence.Keys == item.upstreams.Keys
      && (u.name in item.upstreams <==> ApartSomewhere(local, u))
      && (u.name in item.upstreams ==>
            && item.upstreams[u.name] ==
                (if t in u.data && m in u.data[t] then (if Apart(local, u, t, m) then u.data[t][m] else Text("same"))
                 else if t in local && m in local[t] then Null
                 else Text("same"))
            && item.confidence[u.name] == !(Reports(u, ModelRatio, m, 37.5) && Reports(u, CompletionRatio, m, 1.0)))
  {
    ItemShows(local, channels, t, m, u.name);
    NumbersDiffer(local, channels, u);
    NumbersApartSomewhere(local, channels, u);
    NumbersShown(local, u, t, m);
    TrustMeans(u, m);
  }

  predicate Reports(u: Upstream, t: RatioType, m: string, x: real) {
    t in u.data && m in u.data[t] && u.data[t][m] == Num(x)
  }

  ghost predicate SameChannels(a: seq<Upstream>, b: seq<Upstream>) {
    forall u :: u in a <==> u in b
  }

  lemma SameNames(a: seq<Upstream>, b: seq<Upstream>)
    requires SameChannels(a, b)
    ensures Names(a) == Names(b)
  {
  }

  /** The channel that counts for a name, the last one so called, is the same. */
  ghost predicate NamedAlike(a: seq<Upstream>, b: seq<Upstream>)
    requires SameChannels(a, b)
  {
    SameNames(a, b);
    forall n :: n in Names(a) ==> Named(a, n) == Named(b, n)
  }

  lemma DistinctAreAlike(a: seq<Upstream>, b: seq<Upstream>)
    requires DistinctNames(a) && SameChannels(a, b)
    ensures NamedAlike(a, b)
  {
    SameNames(a, b);
    forall n | n in Names(a) ensures Named(a, n) == Named(b, n) {
      assert Named(a, n) in a && Named(b, n) in b;
    }
  }

  lemma SameIncluded(local: LocalData, a: seq<Upstream>, b: seq<Upstream>, t: RatioType, m: string)
    requires SameChannels(a, b)
    ensures Included(local, a, t, m) == Included(local, b, t, m)
  {
  }

  lemma SameRow(current: Value, a: seq<Upstream>, b: seq<Upstream>, t: RatioType, m: string)
    requires SameChannels(a, b) && NamedAlike(a, b)
    ensures Row(current, a, t, m) == Row(current, b, t, m)
  {
    var x, y := Row(current, a, t, m), Row(current, b, t, m);
    SameNames(a, b);
    forall n | n in Names(a) ensures x[n] == y[n] {
      assert Named(a, n) == Named(b, n);
    }
  }

  lemma SameConfidence(a: seq<Upstream>, b: seq<Upstream>, m: string)
    requires SameChannels(a, b) && NamedAlike(a, b)
    ensures Confidence(a, m) == Confidence(b, m)
  {
    var x, y := Confidence(a, m), Confidence(b, m);
    SameNames(a, b);
    forall n | n in Names(a) ensures x[n] == y[n] {
      assert Named(a, n) == Named(b, n);
    }
  }

  lemma SameItem(local: LocalData, a: seq<Upstream>, b: seq<Upstream>, t: RatioType, m: string)
    requires SameChannels(a, b) && NamedAlike(a, b)
    ensures RawItem(local, a, t, m) == RawItem(local, b, t, m)
  {
    SameRow(LocalValue(local, t, m), a, b, t, m);
    SameConfidence(a, b, m);
  }

  lemma SameModel(local: LocalData, a: seq<Upstream>, b: seq<Upstream>, m: string)
    requires SameChannels(a, b) && NamedAlike(a, b)
    ensures RawModel(local, a, RATIO_TYPES, m) == RawModel(local, b, RATIO_TYPES, m)
  {
    var x, y := RawModel(local, a, RATIO_TYPES, m), RawModel(local, b, RATIO_TYPES, m);
    forall t ensures (t in x <==> t in y) && (t in x ==> x[t] == y[t]) {
      SameIncluded(local, a, b, t, m);
      SameItem(local, a, b, t, m);
    }
    assert x == y;
  }

  lemma SameModels(local: LocalData, a: seq<Upstream>, b: seq<Upstream>)
    requires SameChannels(a, b)
    ensures AllModels(local, a) == AllModels(local, b)
  {
    var x, y := UpstreamModels(a), UpstreamModels(b);
    assert forall m :: m in x <==> m in y;
    assert x == y;
  }

  ghost predicate AlikeAt<K, V>(x: map<K, V>, y: map<K, V>, k: K) {
    (k in x <==> k in y) && (k in x && k in y ==> x[k] == y[k])
  }

  lemma Alike<K, V>(x: map<K, V>, y: map<K, V>)
    requires forall k :: AlikeAt(x, y, k)
    ensures x == y
  {
    forall k ensures k in x <==> k in y {
      assert AlikeAt(x, y, k);
    }
    forall k | k in x ensures x[k] == y[k] {
      assert AlikeAt(x, y, k);
    }
    assert x.Keys == y.Keys;
  }

  lemma SameRawAt(local: LocalData, a: seq<Upstream>, b: seq<Upstream>, models: set<string>, m: string)
    requires SameChannels(a, b) && NamedAlike(a, b)
    ensures AlikeAt(Raw(local, a, models), Raw(local, b, models), m)
  {
    SameModel(local, a, b, m);
  }

  lemma SameRaw(local: LocalData, a: seq<Upstream>, b: seq<Upstream>, models: set<string>)
    requires SameChannels(a, b) && NamedAlike(a, b)
    ensures Raw(local, a, models) == Raw(local, b, models)
  {
    forall m ensures AlikeAt(Raw(local, a, models), Raw(local, b, models), m) {
      SameRawAt(local, a, b, models, m);
    }
    Alike(Raw(local, a, models), Raw(local, b, models));
  }

  /** The answers of the channels may arrive in any order that keeps, for every name, the same
      channel last: with distinct names in any order at all. */
  lemma ArrivalOrderIrrelevant(local: LocalData, a: seq<Upstream>, b: seq<Upstream>)
    requires SameChannels(a, b) && NamedAlike(a, b)
    ensures Table(local, a) == Table(local, b)
  {
    SameModels(local, a, b);
    SameRaw(local, a, b, AllModels(local, a));
  }

  ghost predicate NothingToShow(channels: seq<Upstream>) {
    forall u, t, m :: u in channels && Offers(u, t, m) ==> !IsDifference(u.data[t][m])
  }

  /** Why numbers are needed: channels that offer only nulls (or the string "same") never count
      as differing, so even where they disagree with a local price nothing is listed. */
  lemma NullsAreNotListed(local: LocalData, channels: seq<Upstream>)
    requires NothingToShow(channels)
    ensures Table(local, channels) == map[]
  {
    var names := Differing(Raw(local, channels, AllModels(local, channels)));
    forall n ensures n !in names {
      DifferingMeans(local, channels, n);
    }
    PruneToNothing(Raw(local, channels, AllModels(local, channels)), names);
  }

  lemma PruneToNothing(diffs: Differences, names: set<string>)
    requires forall n :: n !in names
    ensures Prune(diffs, names) == map[]
  {
    forall m ensures m !in Prune(diffs, names) {
      if m in diffs {
        forall t ensures t !in PruneModel(diffs[m], names) {
        }
        assert PruneModel(diffs[m], names) == map[];
      }
    }
  }

  // ----- The passes themselves

  /** Collecting the model names. */
  method CollectModels(local: LocalData, channels: seq<Upstream>) returns (models: set<string>)
    ensures models == AllModels(local, channels)
  {
    models := {};
    for i := 0 to |RATIO_TYPES|
      invariant models == LocalModelsOf(local, RATIO_TYPES[..i])
    {
      var t := RATIO_TYPES[i];
      assert RATIO_TYPES[..i + 1] == RATIO_TYPES[..i] + [t];
      if t in local {
        models := models + local[t].Keys;
      }
    }
    assert RATIO_TYPES[..|RATIO_TYPES|] == RATIO_TYPES;
    ghost var fromLocal := models;
    for i := 0 to |channels|
      invariant models == fromLocal + UpstreamModels(channels[..i])
    {
      assert channels[..i + 1] == channels[..i] + [channels[i]];
      ghost var before := models;
      for j := 0 to |RATIO_TYPES|
        invariant models == before + ModelsOf(channels[i].data, RATIO_TYPES[..j])
      {
        var t := RATIO_TYPES[j];
        assert RATIO_TYPES[..j + 1] == RATIO_TYPES[..j] + [t];
        if t in channels[i].data {
          models := models + channels[i].data[t].Keys;
        }
      }
      assert RATIO_TYPES[..|RATIO_TYPES|] == RATIO_TYPES;
    }
    assert channels[..|channels|] == channels;
  }

  function Ratings(u: Upstream, models: set<string>): map<string, bool> {
    map m | m in models :: Trusted(u, m)
  }

  function Rated(channels: seq<Upstream>, models: set<string>): (r: map<string, map<string, bool>>)
    ensures r.Keys == Names(channels)
    ensures forall n :: n in r ==> r[n] == Ratings(Named(channels, n), models)
  {
    map n | n in Names(channels) :: Ratings(Named(channels, n), models)
  }

  lemma RatedStep(front: seq<Upstream>, u: Upstream, models: set<string>)
    ensures Rated(front + [u], models) == Rated(front, models)[u.name := Ratings(u, models)]
  {
    NamesStep(front, u);
    var x, y := Rated(front + [u], models), Rated(front, models)[u.name := Ratings(u, models)];
    assert x.Keys == y.Keys;
    forall n | n in x ensures x[n] == y[n] {
      NamedStep(front, u, n);
    }
  }

  /** Rating one channel's models, in any order. */
  method RateChannel(u: Upstream, models: set<string>) returns (mine: map<string, bool>)
    ensures mine == Ratings(u, models)
  {
    mine := map[];
    var todo := models;
    while todo != {}
      invariant todo <= models
      invariant mine == Ratings(u, models - todo)
      decreases todo
    {
      var m := Any(todo);
      todo := todo - {m};
      mine := mine[m := true];
      if ModelRatio in u.data && CompletionRatio in u.data {
        if m in u.data[ModelRatio] && m in u.data[CompletionRatio] {
          var a, b := u.data[ModelRatio][m], u.data[CompletionRatio][m];
          if a.Num? && b.Num? && a.num == 37.5 && b.num == 1.0 {
            mine := mine[m := false];
          }
        }
      }
    }
    assert models - todo == models;
  }

  /** Rating every channel's models; a later channel of the same name starts over. */
  method RateConfidence(channels: seq<Upstream>, models: set<string>) returns (rated: map<string, map<string, bool>>)
    ensures rated == Rated(channels, models)
  {
    rated := map[];
    for i := 0 to |channels|
      invariant rated == Rated(channels[..i], models)
    {
      var u := channels[i];
      assert channels[..i + 1] == channels[..i] + [u];
      RatedStep(channels[..i], u, models);
      var mine := RateChannel(u, models);
      rated := rated[u.name := mine];
    }
    assert channels[..|channels|] == channels;
  }

  lemma NamesStep(front: seq<Upstream>, u: Upstream)
    ensures Names(front + [u]) == Names(front) + {u.name}
  {
    forall n ensures n in Names(front + [u]) <==> n in Names(front) + {u.name} {
      assert forall v :: v in front + [u] <==> v in front || v == u;
    }
  }

  lemma NamedStep(front: seq<Upstream>, u: Upstream, n: string)
    requires n in Names(front + [u])
    ensures n == u.name ==> Named(front + [u], n) == u
    ensures n != u.name ==> n in Names(front) && Named(front + [u], n) == Named(front, n)
  {
    NamesStep(front, u);
    assert (front + [u])[..|front|] == front;
  }

  lemma RowStep(current: Value, front: seq<Upstream>, u: Upstream, t: RatioType, m: string)
    ensures Row(current, front + [u], t, m) == Row(current, front, t, m)[u.name := Cell(current, u, t, m)]
  {
    NamesStep(front, u);
    var x, y := Row(current, front + [u], t, m), Row(current, front, t, m)[u.name := Cell(current, u, t, m)];
    assert x.Keys == y.Keys;
    forall n | n in x ensures x[n] == y[n] {
      NamedStep(front, u, n);
    }
  }

  /** The ratings of one model, as far as the named channels go. */
  function RatedColumn(rated: map<string, map<string, bool>>, names: set<string>, m: string): map<string, bool> {
    map n | n in names && n in rated && m in rated[n] :: rated[n][m]
  }

  lemma RatedColumnStep(rated: map<string, map<string, bool>>, names: set<string>, n: string, m: string)
    requires n in rated && m in rated[n]
    ensures RatedColumn(rated, names + {n}, m) == RatedColumn(rated, names, m)[n := rated[n][m]]
  {
  }

  lemma RatedColumnIsConfidence(rated: map<string, map<string, bool>>, channels: seq<Upstream>, m: string)
    requires rated.Keys == Names(channels)
    requires forall n :: n in rated ==> m in rated[n] && rated[n][m] == Trusted(Named(channels, n), m)
    ensures RatedColumn(rated, Names(channels), m) == Confidence(channels, m)
  {
    var x, y := RatedColumn(rated, Names(channels), m), Confidence(channels, m);
    assert x.Keys == y.Keys;
    assert forall n :: n in x ==> x[n] == y[n];
  }

  lemma OfferStep(current: Value, front: seq<Upstream>, u: Upstream, t: RatioType, m: string)
    ensures SomeOffer(front + [u], t, m) <==> SomeOffer(front, t, m) || Offers(u, t, m)
    ensures SomeDifference(current, front + [u], t, m) <==>
      SomeDifference(current, front, t, m) || (Offers(u, t, m) && !ValuesEqual(current, u.data[t][m]))
  {
    assert u in front + [u];
    assert forall v :: v in front ==> v in front + [u];
  }

  /** One more channel in the inner loop. */
  lemma CompareStep(current: Value, front: seq<Upstream>, u: Upstream, t: RatioType, m: string, rated: map<string, map<string, bool>>)
    requires u.name in rated && m in rated[u.name]
    ensures Row(current, front + [u], t, m) == Row(current, front, t, m)[u.name := Cell(current, u, t, m)]
    ensures RatedColumn(rated, Names(front + [u]), m) == RatedColumn(rated, Names(front), m)[u.name := rated[u.name][m]]
    ensures SomeOffer(front + [u], t, m) <==> SomeOffer(front, t, m) || Offers(u, t, m)
    ensures SomeDifference(current, front + [u], t, m) <==>
      SomeDifference(current, front, t, m) || (Offers(u, t, m) && !ValuesEqual(current, u.data[t][m]))
  {
    NamesStep(front, u);
    RowStep(current, front, u, t, m);
    OfferStep(current, front, u, t, m);
    RatedColumnStep(rated, Names(front), u.name, m);
  }

  /** The inner loop over channels for one model and ratio type. */
  method CompareRow(current: Value, channels: seq<Upstream>, t: RatioType, m: string, rated: map<string, map<string, bool>>)
    returns (upstreams: map<string, Value>, confidence: map<string, bool>, offered: bool, different: bool)
    requires rated.Keys == Names(channels)
    requires forall n :: n in rated ==> m in rated[n] && rated[n][m] == Trusted(Named(channels, n), m)
    ensures upstreams == Row(current, channels, t, m) && confidence == Confidence(channels, m)
    ensures offered == SomeOffer(channels, t, m)
    ensures current != Null ==> different == SomeDifference(current, channels, t, m)
  {
    upstreams, confidence, offered, different := map[], map[], false, false;
    for i := 0 to |channels|
      invariant upstreams == Row(current, channels[..i], t, m)
      invariant confidence == RatedColumn(rated, Names(channels[..i]), m)
      invariant offered == SomeOffer(channels[..i], t, m)
      invariant current != Null ==> different == SomeDifference(current, channels[..i], t, m)
    {
      var u := channels[i];
      assert channels[..i + 1] == channels[..i] + [u];
      assert u.name in rated;
      CompareStep(current, channels[..i], u, t, m, rated);
      var value := Null;
      if t in u.data && m in u.data[t] {
        value := u.data[t][m];
        offered := true;
        if current != Null && !ValuesEqual(current, value) {
          different := true;
        } else if ValuesEqual(current, value) {
          value := SAME;
        }
      }
      if value == Null && current == Null {
        value := SAME;
      }
      if current == Null && value != Null && value != SAME {
        different := true;
      }
      upstreams := upstreams[u.name := value];
      confidence := confidence[u.name := rated[u.name][m]];
    }
    assert channels[..|channels|] == channels;
    RatedColumnIsConfidence(rated, channels, m);
  }

  lemma ModelStep(local: LocalData, channels: seq<Upstream>, types: seq<RatioType>, t: RatioType, m: string)
    ensures RawModel(local, channels, types + [t], m) ==
      if Included(local, channels, t, m) then RawModel(local, channels, types, m)[t := RawItem(local, channels, t, m)]
      else RawModel(local, channels, types, m)
  {
    var before, x := RawModel(local, channels, types, m), RawModel(local, channels, types + [t], m);
    forall k ensures k in x <==> k in before || (k == t && Included(local, channels, t, m)) {
      assert k in types + [t] <==> k in types || k == t;
    }
    forall k | k in before ensures x[k] == before[k] {
      assert k in x;
    }
  }

  /** The rows of one model, by ratio type. */
  method FillModel(local: LocalData, channels: seq<Upstream>, m: string, rated: map<string, map<string, bool>>)
    returns (ratios: map<RatioType, Item>)
    requires rated.Keys == Names(channels)
    requires forall n :: n in rated ==> m in rated[n] && rated[n][m] == Trusted(Named(channels, n), m)
    ensures ratios == RawModel(local, channels, RATIO_TYPES, m)
  {
    ratios := map[];
    for i := 0 to |RATIO_TYPES|
      invariant ratios == RawModel(local, channels, RATIO_TYPES[..i], m)
    {
      var t := RATIO_TYPES[i];
      assert RATIO_TYPES[..i + 1] == RATIO_TYPES[..i] + [t];
      var current := Null;
      if t in local && m in local[t] {
        current := Num(local[t][m]);
      }
      var upstreams, confidence, offered, different := CompareRow(current, channels, t, m, rated);
      var shown := false;
      if current != Null {
        if different {
          shown := true;
        }
      } else if offered {
        shown := true;
      }
      ModelStep(local, channels, RATIO_TYPES[..i], t, m);
      if shown {
        ratios := ratios[t := Item(current, upstreams, confidence)];
      }
    }
    assert RATIO_TYPES[..|RATIO_TYPES|] == RATIO_TYPES;
  }

  /** The table before pruning, over the models in any order. */
  method FillDifferences(local: LocalData, channels: seq<Upstream>, models: set<string>, rated: map<string, map<string, bool>>)
    returns (diffs: Differences)
    requires rated.Keys == Names(channels)
    requires forall n :: n in rated ==> rated[n] == Ratings(Named(channels, n), models)
    ensures diffs == Raw(local, channels, models)
  {
    diffs := map[];
    var todo := models;
    while todo != {}
      invariant todo <= models
      invariant diffs == Raw(local, channels, models - todo)
      decreases todo
    {
      var m := Any(todo);
      RawStep(local, channels, models - todo, m);
      assert models - (todo - {m}) == models - todo + {m};
      todo := todo - {m};
      var ratios := FillModel(local, channels, m, rated);
      if ratios != map[] {
        diffs := diffs[m := ratios];
      }
    }
    assert models - todo == models;
  }

  lemma RawStep(local: LocalData, channels: seq<Upstream>, models: set<string>, m: string)
    requires m !in models
    ensures var ratios := RawModel(local, channels, RATIO_TYPES, m);
      Raw(local, channels, models + {m}) ==
        if ratios != map[] then Raw(local, channels, models)[m := ratios] else Raw(local, channels, models)
  {
    var ratios := RawModel(local, channels, RATIO_TYPES, m);
    var before, x := Raw(local, channels, models), Raw(local, channels, models + {m});
    forall k ensures k in x <==> k in before || (k == m && ratios != map[]) {
      assert k in models + {m} <==> k in models || k == m;
    }
    forall k | k in before ensures x[k] == before[k] {
      assert k in x;
    }
  }

  method MarkItem(item: Item) returns (marked: set<string>)
    ensures marked == ShownBy(item)
  {
    marked := {};
    var todo := item.upstreams.Keys;
    while todo != {}
      invariant todo <= item.upstreams.Keys
      invariant marked == set n | n in item.upstreams.Keys - todo && ShowsDifference(item, n)
      decreases todo
    {
      var n := Any(todo);
      todo := todo - {n};
      if item.upstreams[n] != Null && item.upstreams[n] != SAME {
        marked := marked + {n};
      }
    }
  }

  method MarkModel(ratios: map<RatioType, Item>) returns (marked: set<string>)
    ensures forall n :: n in marked <==> exists t :: t in ratios && ShowsDifference(ratios[t], n)
  {
    marked := {};
    var todo := ratios.Keys;
    while todo != {}
      invariant todo <= ratios.Keys
      invariant forall n :: n in marked <==> exists t :: t in ratios && t !in todo && ShowsDifference(ratios[t], n)
      decreases todo
    {
      var t := Any(todo);
      todo := todo - {t};
      var more := MarkItem(ratios[t]);
      marked := marked + more;
    }
  }

  /** Noting every channel with a difference, over the table in any order. */
  method MarkDiffering(diffs: Differences) returns (marked: set<string>)
    ensures marked == Differing(diffs)
  {
    marked := {};
    var todo := diffs.Keys;
    while todo != {}
      invariant todo <= diffs.Keys
      invariant forall n :: n in marked <==>
        exists m, t :: m in diffs && m !in todo && t in diffs[m] && ShowsDifference(diffs[m][t], n)
      decreases todo
    {
      var m := Any(todo);
      todo := todo - {m};
      var more := MarkModel(diffs[m]);
      marked := marked + more;
    }
    assert forall n :: n in marked <==> n in Differing(diffs);
  }

  /** Deleting the columns of channels without any difference, then judging what is left. */
  method PruneColumns(item: Item, names: set<string>) returns (pruned: Item, keep: bool)
    ensures pruned == PruneItem(item, names) && keep == Worthwhile(pruned)
  {
    var upstreams, confidence := item.upstreams, item.confidence;
    var todo := item.upstreams.Keys;
    ghost var gone := {};
    while todo != {}
      invariant todo <= item.upstreams.Keys
      invariant upstreams.Keys == item.upstreams.Keys - gone && confidence.Keys == item.confidence.Keys - gone
      invariant forall n :: n in upstreams ==> upstreams[n] == item.upstreams[n]
      invariant forall n :: n in confidence ==> confidence[n] == item.confidence[n]
      invariant gone == item.upstreams.Keys - todo - names
      decreases todo
    {
      var n := Any(todo);
      todo := todo - {n};
      if n !in names {
        upstreams := upstreams - {n};
        confidence := confidence - {n};
        gone := gone + {n};
      }
    }
    pruned := Item(item.current, upstreams, confidence);
    keep := false;
    todo := upstreams.Keys;
    while todo != {} && !keep
      invariant todo <= upstreams.Keys
      invariant !keep ==> forall n :: n in upstreams.Keys - todo ==> upstreams[n] == SAME
      invariant keep ==> Worthwhile(pruned)
      decreases todo
    {
      var n := Any(todo);
      todo := todo - {n};
      if upstreams[n] != SAME {
        keep := true;
      }
    }
  }

  /** A map in the middle of a pass that rewrites or deletes every entry; `todo` are the keys the
      pass has not come to yet. */
  function Half<K, V>(m: map<K, V>, todo: set<K>, rewrite: V -> V, keep: V -> bool): map<K, V> {
    map k | k in m && (k in todo || keep(rewrite(m[k]))) :: if k in todo then m[k] else rewrite(m[k])
  }

  lemma HalfStep<K, V>(m: map<K, V>, todo: set<K>, k: K, rewrite: V -> V, keep: V -> bool)
    requires k in m && k in todo
    ensures var before := Half(m, todo, rewrite, keep);
      && k in before && before[k] == m[k]
      && Half(m, todo - {k}, rewrite, keep)
         == if keep(rewrite(m[k])) then before[k := rewrite(m[k])] else before - {k}
  {
    var x := Half(m, todo - {k}, rewrite, keep);
    var y := if keep(rewrite(m[k])) then Half(m, todo, rewrite, keep)[k := rewrite(m[k])] else Half(m, todo, rewrite, keep) - {k};
    assert x.Keys == y.Keys;
    assert forall j :: j in x ==> x[j] == y[j];
  }

  lemma HalfAtFirst<K, V>(m: map<K, V>, rewrite: V -> V, keep: V -> bool)
    ensures Half(m, m.Keys, rewrite, keep) == m
  {
    assert Half(m, m.Keys, rewrite, keep).Keys == m.Keys;
  }

  function Pruning(names: set<string>): Item -> Item {
    (item: Item) => PruneItem(item, names)
  }

  function IsWorthwhile(): Item -> bool {
    (item: Item) => Worthwhile(item)
  }

  function PruningModel(names: set<string>): map<RatioType, Item> -> map<RatioType, Item> {
    (ratios: map<RatioType, Item>) => PruneModel(ratios, names)
  }

  function NotEmpty(): map<RatioType, Item> -> bool {
    (ratios: map<RatioType, Item>) => ratios != map[]
  }

  lemma ModelPruned(ratios: map<RatioType, Item>, names: set<string>)
    ensures Half(ratios, {}, Pruning(names), IsWorthwhile()) == PruneModel(ratios, names)
  {
    var x, y := Half(ratios, {}, Pruning(names), IsWorthwhile()), PruneModel(ratios, names);
    assert x.Keys == y.Keys;
    assert forall t :: t in x ==> x[t] == y[t];
  }

  lemma TablePruned(diffs: Differences, names: set<string>)
    ensures Half(diffs, {}, PruningModel(names), NotEmpty()) == Prune(diffs, names)
  {
    var x, y := Half(diffs, {}, PruningModel(names), NotEmpty()), Prune(diffs, names);
    assert x.Keys == y.Keys;
    assert forall m :: m in x ==> x[m] == y[m];
  }

  /** The last pass over one model, by ratio type in any order. */
  method PruneRatios(ratios: map<RatioType, Item>, names: set<string>) returns (pruned: map<RatioType, Item>)
    ensures pruned == PruneModel(ratios, names)
  {
    pruned := ratios;
    var todo := ratios.Keys;
    ghost var rewrite, keep := Pruning(names), IsWorthwhile();
    HalfAtFirst(ratios, rewrite, keep);
    while todo != {}
      invariant todo <= ratios.Keys
      invariant pruned == Half(ratios, todo, rewrite, keep)
      decreases todo
    {
      var t := Any(todo);
      HalfStep(ratios, todo, t, rewrite, keep);
      todo := todo - {t};
      var item, worthwhile := PruneColumns(pruned[t], names);
      if !worthwhile {
        pruned := pruned - {t};
      } else {
        pruned := pruned[t := item];
      }
    }
    ModelPruned(ratios, names);
  }

  /** The last pass, over the models in any order. */
  method PruneDifferences(diffs: Differences, names: set<string>) returns (pruned: Differences)
    ensures pruned == Prune(diffs, names)
  {
    pruned := diffs;
    var todo := diffs.Keys;
    ghost var rewrite, keep := PruningModel(names), NotEmpty();
    HalfAtFirst(diffs, rewrite, keep);
    while todo != {}
      invariant todo <= diffs.Keys
      invariant pruned == Half(diffs, todo, rewrite, keep)
      decreases todo
    {
      var m := Any(todo);
      HalfStep(diffs, todo, m, rewrite, keep);
      todo := todo - {m};
      var ratios := PruneRatios(pruned[m], names);
      if |ratios| == 0 {
        pruned := pruned - {m};
      } else {
        pruned := pruned[m := ratios];
      }
    }
    TablePruned(diffs, names);
  }

  /** `buildDifferences`: every map is ranged over in an arbitrary order, and the result is the
      same table. */
  method BuildDifferences(local: LocalData, channels: seq<Upstream>) returns (diffs: Differences)
    ensures diffs == Table(local, channels)
  {
    var models := CollectModels(local, channels);
    var rated := RateConfidence(channels, models);
    diffs := FillDifferences(local, channels, models, rated);
    var names := MarkDiffering(diffs);
    diffs := PruneDifferences(diffs, names);
  }
}
