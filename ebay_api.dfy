/** The eBay Browse API item normalizer: the rules that turn one item record
    of an `item_summary/search` response into a normalized `Listing`.
    Each function models one method of `EbayConnector`; a Python exception
    escaping that method is an `Err` carrying the exception's kind. */
module EbayApi {
  import opened PyText
  import opened PyJson
  import opened Models

  // ---------------------------------------------------------------------
  // Condition

  const NewConditionIds: seq<Json> := [JStr("1000"), JStr("1500")]
  const RefurbConditionIds: seq<Json> := [JStr("2000"), JStr("2010"), JStr("2020"), JStr("2030")]
  const UsedConditionIds: seq<Json> := [JStr("3000"), JStr("4000"), JStr("5000"), JStr("6000"), JStr("7000")]

  /** The lower-cased condition text: `condition` itself, or the
      `conditionDisplayName` of a `condition` dict. A display name that is
      not a string has no `lower()`. */
  function ConditionText(item: map<string, Json>): (r: Result<string>)
    ensures var condition := Get(item, "condition", JStr(""));
      r.Err? <==> condition.JObj? && !Get(condition.fields, "conditionDisplayName", JStr("")).JStr?
    ensures r.Err? ==> r.error == AttributeError
    ensures var condition := Get(item, "condition", JStr(""));
      && (!condition.JObj? ==> r == Ok(Lower(PyStr(condition))))
      && (condition.JStr? ==> r == Ok(Lower(condition.s)))
      && (condition.JObj? && Get(condition.fields, "conditionDisplayName", JStr("")).JStr? ==>
            r == Ok(Lower(Get(condition.fields, "conditionDisplayName", JStr("")).s)))
    ensures r.Ok? ==> Lower(r.value) == r.value
  {
    var condition := Get(item, "condition", JStr(""));
    if condition.JObj? then
      var name := Get(condition.fields, "conditionDisplayName", JStr(""));
      if name.JStr? then Ok(Lower(name.s)) else Err(AttributeError)
    else
      Ok(Lower(PyStr(condition)))
  }

  function ConditionId(item: map<string, Json>): Json {
    Get(item, "conditionId", JStr(""))
  }

  predicate NewEvidence(text: string, id: Json) {
    Contains(text, "new") || id in NewConditionIds
  }

  predicate RefurbEvidence(text: string, id: Json) {
    Contains(text, "refurbished") || Contains(text, "renewed") || id in RefurbConditionIds
  }

  predicate UsedEvidence(text: string, id: Json) {
    id in UsedConditionIds || Contains(text, "used") || Contains(text, "pre-owned")
  }

  /** `_parse_condition`: the first rule that applies decides, NEW first. */
  function ParseCondition(item: map<string, Json>): (r: Result<Condition>)
    ensures r.Err? <==> ConditionText(item).Err?
    ensures r.Ok? ==>
      var text, id := ConditionText(item).value, ConditionId(item);
      && (r.value == Condition.New <==> NewEvidence(text, id))
      && (r.value == Refurb <==> !NewEvidence(text, id) && RefurbEvidence(text, id))
      && (r.value == Used <==>
            !NewEvidence(text, id) && !RefurbEvidence(text, id) && UsedEvidence(text, id))
      && (r.value == Condition.Unknown <==>
            !NewEvidence(text, id) && !RefurbEvidence(text, id) && !UsedEvidence(text, id))
  {
    var text :- ConditionText(item);
    var id := ConditionId(item);
    if NewEvidence(text, id) then Ok(Condition.New)
    else if RefurbEvidence(text, id) then Ok(Refurb)
    else if id in UsedConditionIds then Ok(Used)
    else if Contains(text, "used") || Contains(text, "pre-owned") then Ok(Used)
    else Ok(Condition.Unknown)
  }

  // ---------------------------------------------------------------------
  // Price

  /** `_parse_price`: the item price (0 when absent) and the cost of the
      first shipping option (None when there are no options). */
  function ParsePrice(item: map<string, Json>): (r: Result<(real, Option<real>)>)
    ensures var price := Get(item, "price", JObj(map[]));
      r.Ok? <==>
        && price.JObj? && IsNumber(Get(price.fields, "value", JInt(0)))
        && (Truthy(ShippingOptions(item)) ==> FirstCostReadable(ShippingOptions(item)))
    ensures "price" !in item && r.Ok? ==> r.value.0 == 0.0
    ensures "price" in item && !item["price"].JObj? ==> r == Err(AttributeError)
    ensures "price" in item && item["price"].JObj? && r.Ok? ==>
      var value := Get(item["price"].fields, "value", JInt(0));
      IsNumber(value) && r.value.0 == NumberValue(value)
    ensures r.Ok? ==> (r.value.1.None? <==> !Truthy(ShippingOptions(item)))
    ensures r.Ok? && r.value.1.Some? ==> r.value.1.value == FirstCost(ShippingOptions(item))
  {
    var info :- AsDict(Get(item, "price", JObj(map[])));
    var price :- ToFloat(Get(info, "value", JInt(0)));
    var options := ShippingOptions(item);
    if !Truthy(options) then Ok((price, None))
    else
      var first :- FirstOption(options);
      var option :- AsDict(first);
      var costInfo :- AsDict(Get(option, "shippingCost", JObj(map[])));
      var shipping :- ToFloat(Get(costInfo, "value", JInt(0)));
      Ok((price, Some(shipping)))
  }

  /** `float(options[0].get("shippingCost", {}).get("value", 0))` succeeds. */
  predicate FirstCostReadable(options: Json)
    requires Truthy(options)
    ensures FirstCostReadable(options) ==> options.JList? && options.items[0].JObj?
  {
    var first := FirstOption(options);
    && first.Ok? && first.value.JObj?
    && var cost := Get(first.value.fields, "shippingCost", JObj(map[]));
       cost.JObj? && IsNumber(Get(cost.fields, "value", JInt(0)))
  }

  /** The value `_parse_price` reads as the first option's shipping cost. */
  function FirstCost(options: Json): (r: real)
    requires Truthy(options) && FirstCostReadable(options)
    ensures var cost := Get(options.items[0].fields, "shippingCost", JObj(map[]));
      && cost.JObj?
      && ("value" in cost.fields ==> r == NumberValue(cost.fields["value"]))
      && ("value" !in cost.fields ==> r == 0.0)
  {
    var cost := Get(FirstOption(options).value.fields, "shippingCost", JObj(map[]));
    NumberValue(Get(cost.fields, "value", JInt(0)))
  }

  /** The first option's cost as `_parse_price` reads it agrees with the
      cost `_parse_shipping` reports, except that a falsy (empty) cost is 0
      for the price and None for the shipping record. */
  lemma PriceShippingMatchesShippingCost(item: map<string, Json>)
    requires ParsePrice(item).Ok? && ParseShipping(item).Ok?
    requires ShippingOptions(item).JList? && ShippingOptions(item).items != []
    ensures var first := ShippingOptions(item).items[0];
      && first.JObj?
      && var cost := Get(first.fields, "shippingCost", JObj(map[]));
         && (Truthy(cost) ==> ParsePrice(item).value.1 == ParseShipping(item).value.cost)
         && (!Truthy(cost) ==>
               ParsePrice(item).value.1 == Some(0.0) && ParseShipping(item).value.cost == None)
  {
    var options := ShippingOptions(item);
    assert Truthy(options);
    var cost := Get(options.items[0].fields, "shippingCost", JObj(map[]));
    if !Truthy(cost) {
      assert cost == JObj(map[]);
    }
  }

  // ---------------------------------------------------------------------
  // Seller

  function SellerData(item: map<string, Json>): Json {
    Get(item, "seller", JObj(map[]))
  }

  /** `_parse_seller`: a falsy feedback field (missing, None, 0, "") gives None. */
  function ParseSeller(item: map<string, Json>): (r: Result<Seller>)
    ensures !SellerData(item).JObj? ==> r == Err(AttributeError)
    ensures SellerData(item).JObj? ==>
      var d := SellerData(item).fields;
      var percentage, score := Get(d, "feedbackPercentage", JNull), Get(d, "feedbackScore", JNull);
      && (r.Ok? <==> (Truthy(percentage) ==> IsNumber(percentage)) && (Truthy(score) ==> IsNumber(score)))
      && (r.Ok? ==>
            && r.value.name == Get(d, "username", JNull)
            && (r.value.rating.None? <==> !Truthy(percentage))
            && (r.value.rating.Some? ==> r.value.rating.value == NumberValue(percentage))
            && (r.value.reviews.None? <==> !Truthy(score))
            && (r.value.reviews.Some? ==> r.value.reviews.value == Trunc(NumberValue(score)))
            && (r.value.isOfficial <==> Get(d, "sellerAccountType", JNull) == JStr("BUSINESS")))
  {
    var d :- AsDict(SellerData(item));
    var percentage := Get(d, "feedbackPercentage", JNull);
    var rating :- if Truthy(percentage) then OkSome(ToFloat(percentage)) else Ok(None);
    var score := Get(d, "feedbackScore", JNull);
    var reviews :- if Truthy(score) then OkSome(ToInt(score)) else Ok(None);
    Ok(Seller(Get(d, "username", JNull), rating, reviews,
              Get(d, "sellerAccountType", JNull) == JStr("BUSINESS")))
  }

  /** Wraps the value of a successful conversion in `Some`. */
  function OkSome<T>(r: Result<T>): (o: Result<Option<T>>)
    ensures o.Ok? <==> r.Ok?
    ensures o.Ok? ==> o.value == Some(r.value)
    ensures o.Err? ==> o.error == r.error
  {
    match r
    case Ok(v) => Ok(Some(v))
    case Err(e) => Err(e)
  }

  // ---------------------------------------------------------------------
  // Shipping

  function ShippingOptions(item: map<string, Json>): Json {
    Get(item, "shippingOptions", JList([]))
  }

  /** `shipping_options[0]` on a truthy value: a list gives its head, a string
      its first character; a dict has no key 0 and a number is not subscriptable. */
  function FirstOption(options: Json): (r: Result<Json>)
    requires Truthy(options)
    ensures options.JList? ==> r == Ok(options.items[0])
    ensures options.JStr? ==> r == Ok(JStr(options.s[..1]))
    ensures options.JObj? ==> r == Err(KeyError)
    ensures IsNumber(options) ==> r == Err(TypeError)
  {
    match options
    case JList(l) => Ok(l[0])
    case JStr(s) => Ok(JStr(s[..1]))
    case JObj(_) => Err(KeyError)
    case _ => Err(TypeError)
  }

  /** The shipping method chosen by keyword in the lower-cased service code. */
  function MethodOfCode(code: string): (m: ShippingMethod)
    ensures var t := Lower(code);
      && (m == Expedited <==> Contains(t, "expedited") || Contains(t, "express"))
      && (m == Standard <==>
            !(Contains(t, "expedited") || Contains(t, "express"))
            && (Contains(t, "standard") || Contains(t, "economy")))
  {
    var t := Lower(code);
    if Contains(t, "expedited") || Contains(t, "express") then Expedited
    else if Contains(t, "standard") || Contains(t, "economy") then Standard
    else ShippingMethod.Unknown
  }

  /** `eta` at line 147: the truncated midpoint when both bounds are truthy,
      otherwise `min_days or max_days`. `min_days + max_days` of two
      non-numbers either raises or yields a string or list that `/ 2` rejects. */
  function EstimatedEta(minDays: Json, maxDays: Json): (r: Result<Json>)
    ensures Truthy(minDays) && Truthy(maxDays) ==>
      r == if IsNumber(minDays) && IsNumber(maxDays)
           then Ok(JInt(Trunc((NumberValue(minDays) + NumberValue(maxDays)) / 2.0)))
           else Err(TypeError)
    ensures !(Truthy(minDays) && Truthy(maxDays)) ==> r == Ok(Or(minDays, maxDays))
    ensures Truthy(minDays) && Truthy(maxDays) && IsNumber(minDays) && IsNumber(maxDays)
            && NumberValue(minDays) <= NumberValue(maxDays) ==>
      && r.Ok? && r.value.JInt?
      && Trunc(NumberValue(minDays)) <= r.value.i <= Trunc(NumberValue(maxDays))
  {
    if Truthy(minDays) && Truthy(maxDays) then
      if IsNumber(minDays) && IsNumber(maxDays) then
        var lo, hi := NumberValue(minDays), NumberValue(maxDays);
        var mid := (lo + hi) / 2.0;
        if lo <= hi then
          TruncMonotone(lo, mid);
          TruncMonotone(mid, hi);
          Ok(JInt(Trunc(mid)))
        else Ok(JInt(Trunc(mid)))
      else Err(TypeError)
    else
      Ok(Or(minDays, maxDays))
  }

  /** `int(eta) if eta else None` */
  function EtaDays(eta: Json): (r: Result<Option<int>>)
    ensures !Truthy(eta) <==> r == Ok(None)
    ensures Truthy(eta) ==> r == OkSome(ToInt(eta))
  {
    if Truthy(eta) then OkSome(ToInt(eta)) else Ok(None)
  }

  /** The delivery estimate in days, when neither step raises. */
  function DeliveryEta(minDays: Json, maxDays: Json): (r: Result<Option<int>>)
    ensures !Truthy(minDays) && !Truthy(maxDays) ==> r == Ok(None)
    ensures Truthy(minDays) != Truthy(maxDays) ==> r == EtaDays(if Truthy(minDays) then minDays else maxDays)
    ensures Truthy(minDays) && Truthy(maxDays) ==> (r.Ok? <==> IsNumber(minDays) && IsNumber(maxDays))
    ensures Truthy(minDays) && Truthy(maxDays) && IsNumber(minDays) && IsNumber(maxDays) ==>
      var e := Trunc((NumberValue(minDays) + NumberValue(maxDays)) / 2.0);
      r == Ok(if e == 0 then None else Some(e))
  {
    var eta :- EstimatedEta(minDays, maxDays);
    EtaDays(eta)
  }

  /** The shipping record built from one shipping option. */
  function ParseShippingOption(option: Json): (r: Result<Shipping>)
    ensures !option.JObj? ==> r == Err(AttributeError)
    ensures option.JObj? ==>
      var d := option.fields;
      var costInfo := Get(d, "shippingCost", JObj(map[]));
      r.Ok? <==>
        && (Truthy(costInfo) ==> costInfo.JObj? && IsNumber(Get(costInfo.fields, "value", JInt(0))))
        && DeliveryEta(Get(d, "minEstimatedDeliveryDays", JNull), Get(d, "maxEstimatedDeliveryDays", JNull)).Ok?
        && Get(d, "shippingServiceCode", JStr("")).JStr?
    ensures r.Ok? ==>
      var d := option.fields;
      var costInfo := Get(d, "shippingCost", JObj(map[]));
      var code := Get(d, "shippingServiceCode", JStr(""));
      && r.value.ShippingOf?
      && (r.value.cost.None? <==> !Truthy(costInfo))
      && (r.value.cost.Some? ==>
            && costInfo.JObj? && IsNumber(Get(costInfo.fields, "value", JInt(0)))
            && r.value.cost.value == NumberValue(Get(costInfo.fields, "value", JInt(0))))
      && Ok(r.value.etaDays) ==
            DeliveryEta(Get(d, "minEstimatedDeliveryDays", JNull), Get(d, "maxEstimatedDeliveryDays", JNull))
      && code.JStr? && r.value.shipMethod == MethodOfCode(code.s)
  {
    var d :- AsDict(option);
    var costInfo := Get(d, "shippingCost", JObj(map[]));
    var cost :- if Truthy(costInfo) then
                  var info :- AsDict(costInfo);
                  OkSome(ToFloat(Get(info, "value", JInt(0))))
                else Ok(None);
    var eta :- EstimatedEta(Get(d, "minEstimatedDeliveryDays", JNull), Get(d, "maxEstimatedDeliveryDays", JNull));
    var code := Get(d, "shippingServiceCode", JStr(""));
    if !code.JStr? then Err(AttributeError)
    else
      var shipMethod := MethodOfCode(code.s);
      var etaDays :- EtaDays(eta);
      Ok(ShippingOf(cost, etaDays, shipMethod))
  }

  /** `_parse_shipping`: only the first shipping option is read. */
  function ParseShipping(item: map<string, Json>): (r: Result<Shipping>)
    ensures !Truthy(ShippingOptions(item)) ==> r == Ok(DefaultShipping)
    ensures var options := ShippingOptions(item);
      options.JList? && options.items != [] ==> r == ParseShippingOption(options.items[0])
    ensures var options := ShippingOptions(item);
      Truthy(options) && !options.JList? ==> r.Err?
  {
    var options := ShippingOptions(item);
    if !Truthy(options) then Ok(DefaultShipping)
    else
      var first :- FirstOption(options);
      ParseShippingOption(first)
  }

  // ---------------------------------------------------------------------
  // Returns

  /** The return window in days: `value` for unit DAY, `value * 30` for
      MONTH, None for a falsy value or any other unit. */
  function ReturnWindow(value: Json, unit: string): (r: Result<Option<int>>)
    ensures !Truthy(value) ==> r == Ok(None)
    ensures Upper(unit) != "DAY" && Upper(unit) != "MONTH" ==> r == Ok(None)
    ensures r.Ok? && r.value.Some? ==>
      && Truthy(value) && IsNumber(value)
      && (Upper(unit) == "DAY" ==> r.value.value == Trunc(NumberValue(value)))
      && (Upper(unit) == "MONTH" ==> r.value.value == Trunc(NumberValue(value)) * 30)
    ensures Truthy(value) && (Upper(unit) == "DAY" || Upper(unit) == "MONTH") ==>
      (r.Ok? <==> IsNumber(value)) && (r.Ok? ==> r.value.Some?)
  {
    var u := Upper(unit);
    if Truthy(value) then
      if u == "DAY" then OkSome(ToInt(value))
      else if u == "MONTH" then
        var days :- ToInt(value);
        Ok(Some(days * 30))
      else Ok(None)
    else Ok(None)
  }

  function ReturnTerms(item: map<string, Json>): Json {
    Get(item, "returnTerms", JObj(map[]))
  }

  /** `_parse_returns`: `unknown` exactly when `returnTerms` is missing or empty. */
  function ParseReturns(item: map<string, Json>): (r: Result<Returns>)
    ensures !Truthy(ReturnTerms(item)) ==> r == Ok(UnknownReturns)
    ensures r.Ok? ==> (r.value.IsUnknown() <==> !Truthy(ReturnTerms(item)))
    ensures Truthy(ReturnTerms(item)) && !ReturnTerms(item).JObj? ==> r == Err(AttributeError)
    ensures Truthy(ReturnTerms(item)) && ReturnTerms(item).JObj? ==>
      var period := Get(ReturnTerms(item).fields, "returnPeriod", JObj(map[]));
      r.Ok? <==>
        && period.JObj?
        && var unit := Get(period.fields, "unit", JStr(""));
           unit.JStr? && ReturnWindow(Get(period.fields, "value", JNull), unit.s).Ok?
    ensures r.Ok? && r.value.KnownReturns? ==>
      var terms := ReturnTerms(item).fields;
      var period := Get(terms, "returnPeriod", JObj(map[]));
      && r.value.available == Get(terms, "returnsAccepted", JBool(false))
      && period.JObj?
      && var unit := Get(period.fields, "unit", JStr(""));
         unit.JStr? && Ok(r.value.windowDays) == ReturnWindow(Get(period.fields, "value", JNull), unit.s)
  {
    var termsJson := ReturnTerms(item);
    if !Truthy(termsJson) then Ok(UnknownReturns)
    else
      var terms :- AsDict(termsJson);
      var accepted := Get(terms, "returnsAccepted", JBool(false));
      var period :- AsDict(Get(terms, "returnPeriod", JObj(map[])));
      var value := Get(period, "value", JNull);
      var unit := Get(period, "unit", JStr(""));
      if !unit.JStr? then Err(AttributeError)
      else
        var window :- ReturnWindow(value, unit.s);
        Ok(KnownReturns(accepted, window))
  }

  // ---------------------------------------------------------------------
  // Specs

  /** `[word.lower() for word in words if len(word) > 2]` */
  function KeptWords(words: seq<string>): (kept: seq<string>)
    ensures |kept| <= |words|
    ensures forall i :: 0 <= i < |kept| ==> |kept[i]| > 2 && Lower(kept[i]) == kept[i]
  {
    if words == [] then []
    else (if |words[0]| > 2 then [Lower(words[0])] else []) + KeptWords(words[1..])
  }

  /** The key-term candidates of a title, in title order. */
  function KeyTermCandidates(title: string): seq<string> {
    KeptWords(Split(ReplaceDash(title)))
  }

  function Take<T>(s: seq<T>, n: nat): (r: seq<T>)
    ensures |r| == if |s| <= n then |s| else n
    ensures r == s[..|r|]
  {
    if |s| <= n then s else s[..n]
  }

  /** A key term: longer than two characters, lower case, no whitespace, no dash. */
  predicate KeyTerm(w: string) {
    |w| > 2 && Lower(w) == w && NoSpace(w) && forall i :: 0 <= i < |w| ==> w[i] != '-'
  }

  /** The specs read from a title string. */
  function SpecsOfTitle(title: string): (r: Specs)
    ensures r.model.None?
    ensures r.brand.None? <==> AllSpace(title)
    ensures r.brand.Some? ==> FirstWord(title, r.brand.value)
    ensures |r.keyTerms| <= 10
    ensures forall i :: 0 <= i < |r.keyTerms| ==> KeyTerm(r.keyTerms[i])
    ensures var c := KeyTermCandidates(title);
      |r.keyTerms| == (if |c| <= 10 then |c| else 10) && r.keyTerms == c[..|r.keyTerms|]
  {
    var parts := Split(title);
    SplitEmptyIffBlank(title);
    KeyTermCandidatesAreKeyTerms(title);
    var brand := if parts != [] then SplitHeadIsFirstWord(title); Some(parts[0]) else None;
    Specs(brand, None, Take(KeyTermCandidates(title), 10))
  }

  /** `_extract_specs`: a title that is not a string has no `split()`. */
  function ExtractSpecs(item: map<string, Json>): (r: Result<Specs>)
    ensures var title := Get(item, "title", JStr(""));
      r == if title.JStr? then Ok(SpecsOfTitle(title.s)) else Err(AttributeError)
  {
    var title := Get(item, "title", JStr(""));
    if title.JStr? then Ok(SpecsOfTitle(title.s)) else Err(AttributeError)
  }

  // ---------------------------------------------------------------------
  // Listing assembly

  /** `item.get("itemId", f"ebay-{hash(item.get('title', ''))}")` */
  function ListingId(item: map<string, Json>, hash: Json -> int): (id: Json)
    ensures "itemId" in item ==> id == item["itemId"]
    ensures "itemId" !in item ==> id == JStr("ebay-" + IntText(hash(Get(item, "title", JStr("")))))
  {
    Get(item, "itemId", JStr("ebay-" + IntText(hash(Get(item, "title", JStr(""))))))
  }

  /** `_normalize_listing`. `hash` stands for Python's per-process string
      hashing, used for the fallback id. Its default argument is evaluated
      even when `itemId` is present, so an unhashable title raises. */
  function NormalizeListing(item: map<string, Json>, hash: Json -> int): (r: Result<Listing>)
    ensures r.Ok? <==>
      && ParsePrice(item).Ok?
      && Hashable(Get(item, "title", JStr("")))
      && Get(item, "image", JObj(map[])).JObj?
      && ParseCondition(item).Ok? && ParseShipping(item).Ok? && ParseReturns(item).Ok?
      && ParseSeller(item).Ok? && ExtractSpecs(item).Ok?
    ensures ParsePrice(item).Err? ==> r == Err(ParsePrice(item).error)
    ensures r.Ok? ==>
      var l := r.value;
      && l.source == Ebay
      && l.price == Price(ParsePrice(item).value.0, "USD")
      && l.id == ListingId(item, hash)
      && l.title == Get(item, "title", JStr("Unknown Item"))
      && l.url == Get(item, "itemWebUrl", JStr(""))
      && l.imageUrl == Get(Get(item, "image", JObj(map[])).fields, "imageUrl", JNull)
      && Ok(l.condition) == ParseCondition(item)
      && Ok(l.shipping) == ParseShipping(item)
      && Ok(l.returnPolicy) == ParseReturns(item)
      && Ok(l.seller) == ParseSeller(item)
      && Ok(l.specs) == ExtractSpecs(item)
      && (l.signals.sponsored <==> Present(item, "adId"))
      && (l.signals.lowStock <==> Present(item, "quantityLimitPerBuyer"))
      && l.raw.notes == "conditionId: " + PyStr(Get(item, "conditionId", JNull))
  {
    var prices :- ParsePrice(item);
    var hashed := Get(item, "title", JStr(""));
    if !Hashable(hashed) then Err(TypeError)
    else
      var image :- AsDict(Get(item, "image", JObj(map[])));
      var condition :- ParseCondition(item);
      var shipping :- ParseShipping(item);
      var returnPolicy :- ParseReturns(item);
      var seller :- ParseSeller(item);
      var specs :- ExtractSpecs(item);
      Ok(Listing(
        ListingId(item, hash),
        Ebay,
        Get(item, "title", JStr("Unknown Item")),
        Get(item, "itemWebUrl", JStr("")),
        Get(image, "imageUrl", JNull),
        Price(prices.0, "USD"),
        condition, shipping, returnPolicy, seller, specs,
        Signals(Present(item, "adId"), Present(item, "quantityLimitPerBuyer")),
        RawData("conditionId: " + PyStr(Get(item, "conditionId", JNull)))))
  }

  /** One element of `itemSummaries`: anything but a dict has no `get`. */
  function NormalizeItem(item: Json, hash: Json -> int): (r: Result<Listing>)
    ensures item.JObj? ==> r == NormalizeListing(item.fields, hash)
    ensures !item.JObj? ==> r == Err(AttributeError)
  {
    if item.JObj? then NormalizeListing(item.fields, hash) else Err(AttributeError)
  }

  /** The length of `items[:n]` under Python's slice rules (a negative `n`
      counts from the end). */
  function SliceEnd(len: nat, n: int): (k: nat)
    ensures k <= len
    ensures n >= 0 ==> k == if n <= len then n else len
    ensures n < 0 ==> k == if len + n >= 0 then len + n else 0
  {
    if n >= 0 then (if n <= len then n else len)
    else if len + n >= 0 then len + n else 0
  }

  /** The pure tail of `search`, `[normalize(item) for item in items[:max_results]]`,
      for any per-item normalizer. */
  function SearchResults<L>(normalize: Json -> Result<L>, items: seq<Json>, maxResults: int): (r: Result<seq<L>>)
    ensures var k := SliceEnd(|items|, maxResults);
      && (r.Ok? <==> forall i :: 0 <= i < k ==> normalize(items[i]).Ok?)
      && (r.Ok? ==> |r.value| == k && forall i :: 0 <= i < k ==> normalize(items[i]) == Ok(r.value[i]))
      && (r.Err? ==> exists i :: 0 <= i < k && FirstFailure(normalize, items[..k], i, r.error))
  {
    MapResults(normalize, items[..SliceEnd(|items|, maxResults)])
  }

  /** `search` after the response is decoded: the items normalized by `_normalize_listing`. */
  function NormalizeResults(items: seq<Json>, maxResults: int, hash: Json -> int): (r: Result<seq<Listing>>)
    ensures r.Ok? ==> |r.value| <= |items| && (maxResults >= 0 ==> |r.value| <= maxResults)
  {
    SearchResults(NormalizeWith(hash), items, maxResults)
  }

  /** `self._normalize_listing` with the hash function bound. */
  function NormalizeWith(hash: Json -> int): (f: Json -> Result<Listing>)
    ensures forall item :: f(item) == NormalizeItem(item, hash)
  {
    item => NormalizeItem(item, hash)
  }

  // ---------------------------------------------------------------------
  // Lemmas

  /** Key-term candidates are all key terms. */
  lemma KeyTermCandidatesAreKeyTerms(title: string)
    ensures forall i :: 0 <= i < |KeyTermCandidates(title)| ==> KeyTerm(KeyTermCandidates(title)[i])
  {
    var words := Split(ReplaceDash(title));
    SplitTokens(ReplaceDash(title));
    ReplaceDashRemovesDashes(title);
    forall q, j | 0 <= q < |words| && 0 <= j < |words[q]|
      ensures words[q][j] != '-'
    {
      SplitCharsFromText(ReplaceDash(title), q, j);
    }
    KeptWordsAreKeyTerms(words);
  }

  lemma {:induction false} KeptWordsAreKeyTerms(words: seq<string>)
    requires forall q :: 0 <= q < |words| ==> NoSpace(words[q])
    requires forall q, j :: 0 <= q < |words| && 0 <= j < |words[q]| ==> words[q][j] != '-'
    ensures forall i :: 0 <= i < |KeptWords(words)| ==> KeyTerm(KeptWords(words)[i])
  {
    if words != [] {
      KeptWordsAreKeyTerms(words[1..]);
      var w := words[0];
      if |w| > 2 {
        LowerIdempotent(w);
        assert forall j :: 0 <= j < |w| ==> Lower(w)[j] == LowerChar(w[j]);
        assert KeyTerm(Lower(w));
      }
    }
  }

  /** Texts equal up to letter case keep the same words. */
  lemma {:induction false} KeptWordsIgnoreCase(ws: seq<string>, vs: seq<string>)
    requires |ws| == |vs|
    requires forall q :: 0 <= q < |ws| ==> Lower(ws[q]) == Lower(vs[q])
    ensures KeptWords(ws) == KeptWords(vs)
  {
    if ws != [] {
      SameLowerShape(ws[0], vs[0]);
      KeptWordsIgnoreCase(ws[1..], vs[1..]);
    }
  }

  /** The comprehension distributes over concatenation. */
  lemma {:induction false} KeptWordsAppend(a: seq<string>, b: seq<string>)
    ensures KeptWords(a + b) == KeptWords(a) + KeptWords(b)
  {
    if a == [] {
      assert a + b == b;
    } else {
      assert (a + b)[0] == a[0];
      assert (a + b)[1..] == a[1..] + b;
      KeptWordsAppend(a[1..], b);
    }
  }

  /** A single word is kept, lower-cased, exactly when it is longer than two characters. */
  lemma KeptWordsSingle(w: string)
    ensures KeptWords([w]) == if |w| > 2 then [Lower(w)] else []
  {
    assert [w][1..] == [];
  }

  // Condition

  /** "renewed" contains "new", so a renewed item is classified NEW. */
  lemma RenewedIsNew(item: map<string, Json>)
    requires ConditionText(item).Ok? && Contains(ConditionText(item).value, "renewed")
    ensures ParseCondition(item) == Ok(Condition.New)
  {
    RenewedHasNew(ConditionText(item).value);
  }

  /** REFURB is only ever decided by "refurbished" or by the id table: the
      "renewed" test of that rule is never the one that applies. */
  lemma RefurbNeverFromRenewed(item: map<string, Json>)
    requires ParseCondition(item) == Ok(Refurb)
    ensures Contains(ConditionText(item).value, "refurbished") || ConditionId(item) in RefurbConditionIds
  {
    var text := ConditionText(item).value;
    if Contains(text, "renewed") {
      RenewedHasNew(text);
    }
  }

  /** A display name "Renewed" gives NEW. */
  lemma RenewedDisplayNameIsNew()
    ensures ParseCondition(map["condition" := JObj(map["conditionDisplayName" := JStr("Renewed")])])
            == Ok(Condition.New)
  {
    var item := map["condition" := JObj(map["conditionDisplayName" := JStr("Renewed")])];
    assert Lower("Renewed") == "renewed";
    assert OccursAt("renewed", "new", 2);
  }

  // Shipping

  /** For truthy numeric bounds `min <= max` the estimate is the truncated
      midpoint, which lies between the truncated bounds (so within
      `[min, max]` for whole-day bounds); it is None exactly when that
      midpoint truncates to 0. */
  lemma EtaWithinRange(minDays: Json, maxDays: Json)
    requires Truthy(minDays) && Truthy(maxDays) && IsNumber(minDays) && IsNumber(maxDays)
    requires NumberValue(minDays) <= NumberValue(maxDays)
    ensures DeliveryEta(minDays, maxDays).Ok?
    ensures var eta := DeliveryEta(minDays, maxDays).value;
      && (eta.Some? ==> Trunc(NumberValue(minDays)) <= eta.value <= Trunc(NumberValue(maxDays)))
      && (eta.None? <==> -2.0 < NumberValue(minDays) + NumberValue(maxDays) < 2.0)
  {
    var m := (NumberValue(minDays) + NumberValue(maxDays)) / 2.0;
    assert EstimatedEta(minDays, maxDays) == Ok(JInt(Trunc(m)));
    assert Trunc(m) == 0 <==> -1.0 < m < 1.0;
  }

  /** Capitalising the service code does not change the method. */
  lemma MethodIgnoresCase(code: string)
    ensures MethodOfCode(Upper(code)) == MethodOfCode(code)
  {
    LowerOfUpper(code);
  }

  // Returns

  /** Lower-casing the period unit does not change the window. */
  lemma ReturnUnitIgnoresCase(value: Json, unit: string)
    ensures ReturnWindow(value, Lower(unit)) == ReturnWindow(value, unit)
  {
    UpperOfLower(unit);
  }

  // Specs

  /** Key terms do not depend on the letter case of the title, while the
      brand keeps the title's own case. */
  lemma KeyTermsIgnoreCase(a: string, b: string)
    requires Lower(a) == Lower(b)
    ensures SpecsOfTitle(a).keyTerms == SpecsOfTitle(b).keyTerms
  {
    ReplaceDashIgnoresCase(a, b);
    SplitIgnoresCase(ReplaceDash(a), ReplaceDash(b));
    KeptWordsIgnoreCase(Split(ReplaceDash(a)), Split(ReplaceDash(b)));
  }

  /** A word repeated in the title is a key term twice: no deduplication. */
  lemma RepeatedWordKeptTwice(w: string)
    requires |w| > 2 && NoSpace(w) && forall i :: 0 <= i < |w| ==> w[i] != '-'
    ensures SpecsOfTitle(w + " " + w) == Specs(Some(w), None, [Lower(w), Lower(w)])
  {
    var title := w + " " + w;
    assert ReplaceDash(title) == title;
    assert title == w + (" " + w);
    SplitWordThenRest(w, " " + w);
    assert (" " + w)[1..] == w;
    SplitWordThenRest(w, []);
    assert w + [] == w;
    assert Split(title) == [w, w];
    assert KeptWords([w, w]) == [Lower(w), Lower(w)];
  }

  // Listing assembly

  /** Every parser accepts an empty item and returns its default. */
  lemma EmptyItemParsers()
    ensures ParsePrice(map[]) == Ok((0.0, None))
    ensures ParseCondition(map[]) == Ok(Condition.Unknown)
    ensures ParseShipping(map[]) == Ok(DefaultShipping)
    ensures ParseReturns(map[]) == Ok(UnknownReturns)
    ensures ParseSeller(map[]) == Ok(Seller(JNull, None, None, false))
    ensures ExtractSpecs(map[]) == Ok(Specs(None, None, []))
  {
    assert Lower("") == "" && ReplaceDash("") == "";
    assert !Contains("", "new") && !Contains("", "refurbished") && !Contains("", "renewed");
    assert !Contains("", "used") && !Contains("", "pre-owned");
  }

  /** Every field of an empty item takes its default. */
  lemma EmptyItemDefaults(hash: Json -> int)
    ensures NormalizeListing(map[], hash) == Ok(Listing(
      JStr("ebay-" + IntText(hash(JStr("")))), Ebay, JStr("Unknown Item"), JStr(""), JNull,
      Price(0.0, "USD"), Condition.Unknown, DefaultShipping, UnknownReturns,
      Seller(JNull, None, None, false), Specs(None, None, []),
      Signals(false, false), RawData("conditionId: None")))
  {
    EmptyItemParsers();
    assert ListingId(map[], hash) == JStr("ebay-" + IntText(hash(JStr(""))));
    var l := NormalizeListing(map[], hash).value;
    assert l.raw == RawData("conditionId: None");
  }

  /** `_parse_price` reads the first option's `shippingCost` without the
      truthiness guard of `_parse_shipping`: a null cost, which shipping
      reads as "no cost", makes the whole listing raise. */
  lemma NullShippingCostRaises(hash: Json -> int)
    ensures var item := map["shippingOptions" := JList([JObj(map["shippingCost" := JNull])])];
      && ParseShipping(item) == Ok(ShippingOf(None, None, ShippingMethod.Unknown))
      && NormalizeListing(item, hash) == Err(AttributeError)
  {
    assert Lower("") == "";
    assert !Contains("", "expedited") && !Contains("", "express");
    assert !Contains("", "standard") && !Contains("", "economy");
  }

  // Search

  /** `search` returns one listing per item of `items[:max_results]`, in
      order, or raises the error of the first item that fails. */
  lemma NormalizeResultsInOrder(items: seq<Json>, maxResults: int, hash: Json -> int)
    ensures var r, k := NormalizeResults(items, maxResults, hash), SliceEnd(|items|, maxResults);
      && (r.Ok? <==> forall i :: 0 <= i < k ==> NormalizeItem(items[i], hash).Ok?)
      && (r.Ok? ==> |r.value| == k && forall i :: 0 <= i < k ==> NormalizeItem(items[i], hash) == Ok(r.value[i]))
      && (r.Err? ==> exists i :: 0 <= i < k && NormalizeItem(items[i], hash) == Err(r.error)
                                && forall j :: 0 <= j < i ==> NormalizeItem(items[j], hash).Ok?)
  {
    var f := NormalizeWith(hash);
    var k := SliceEnd(|items|, maxResults);
    var r := NormalizeResults(items, maxResults, hash);
    assert r == SearchResults(f, items, maxResults);
    if r.Err? {
      var i :| 0 <= i < k && FirstFailure(f, items[..k], i, r.error);
      assert items[..k][i] == items[i];
      assert NormalizeItem(items[i], hash) == Err(r.error);
      forall j | 0 <= j < i
        ensures NormalizeItem(items[j], hash).Ok?
      {
        assert items[..k][j] == items[j];
        assert f(items[..k][j]).Ok?;
      }
    }
  }
}
