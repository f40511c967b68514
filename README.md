# eBay item normalizer

A Dafny model of the item normalizer of the eBay connector
(`server/sources/ebay_api.py`, class `EbayConnector`). It covers the rules
that turn one item record of a Browse API `item_summary/search`
response into the normalized `Listing`. These are condition classification,
price, seller, shipping (first option, delivery-time midpoint, method keyword),
return policy (DAY and MONTH windows), brand and key terms from the title, and
the listing's constant and derived fields. It also covers the pure tail of
`search`, which maps `items[:max_results]` through the normalizer in order.

The item is decoded JSON as Python holds it (`PyJson.Json`). Each parser is a
total function. When the Python method would raise, the result is
`Err(kind)`, where `kind` is `AttributeError` (`.get`, `.lower()`, `.upper()`
or `.split()` on the wrong type), `TypeError` (`float(None)`, `hash` of a list
or a dict, arithmetic on non-numbers, indexing a number) or `KeyError`
(`options[0]` on a dict). Errors come out in the order the Python code would
raise them. Apart from the cases listed under "Left out" (numeric strings,
non-ASCII letters, `str()` of floats, lists and dicts), an item the normalizer
accepts in Python is accepted here with the same fields. Booleans count as the
numbers 0 and 1, as in Python. Python truthiness (`Truthy`) decides every
`if x` and `x or y`, so `0` and `""` count as absent wherever the code tests
truthiness.

Files:

- `pytext.dfy` (module `PyText`): string operations used by the code, such as
  `lower()`, `upper()`, `in`, `replace("-", " ")` and `split()` (Python's
  whitespace set), together with their lemmas.
- `pyjson.dfy` (module `PyJson`): the JSON value type, truthiness, `dict.get`,
  `or`, `float()`, `int()`, `hash`-ability, `str()`, and a list comprehension
  that stops at the first element that raises.
- `models.dfy` (module `Models`): the output records (`Listing`, `Shipping`,
  `Returns`, `Seller`, `Specs`, …). `Shipping()` and `Returns(unknown=True)`
  are the opaque constructors `DefaultShipping` and `UnknownReturns`.
- `ebay_api.dfy` (module `EbayApi`): the parsers, the listing assembly, the
  search tail and the lemmas about them.

Two behaviours of the code worth knowing:

- Key terms are not deduplicated: a repeated title word is kept each time
  (`EbayApi.RepeatedWordKeptTwice`).
- The seller `rating` is `feedbackPercentage` unchanged, with no rescaling.

## Model

| member | source | states |
|---|---|---|
| EbayApi.ConditionText | server/sources/ebay_api.py:83-89 | The text is `str(condition).lower()` for a non-dict `condition` (the string itself lowered for a string) and the lowered `conditionDisplayName` (default "") for a dict. It fails, with AttributeError, exactly when that display name is not a string. The text is lower case. |
| EbayApi.ParseCondition | server/sources/ebay_api.py:81-100 | Exactly one condition is returned, by precedence: NEW if the text contains "new" or the id is 1000/1500; otherwise REFURB for "refurbished", "renewed" or ids 2000–2030; otherwise USED for ids 3000–7000 or "used"/"pre-owned"; otherwise UNKNOWN. Each outcome is stated as an if-and-only-if. |
| EbayApi.RenewedIsNew | server/sources/ebay_api.py:91-93 | Text containing "renewed" is classified NEW, because "renewed" contains "new". |
| EbayApi.RefurbNeverFromRenewed | server/sources/ebay_api.py:93 | A REFURB result always comes from "refurbished" or the id table. The "renewed" test never decides. |
| EbayApi.RenewedDisplayNameIsNew | server/sources/ebay_api.py:86-92 | A `condition` dict with display name "Renewed" gives NEW. |
| PyText.RenewedHasNew | server/sources/ebay_api.py:91-93 | Any text containing "renewed" contains "new". |
| EbayApi.ParsePrice | server/sources/ebay_api.py:102-114 | It succeeds exactly when `price` (default `{}`) is a dict with a numeric `value` (default 0) and, if there are shipping options, the first one is a dict whose `shippingCost` (default `{}`) is a dict with a numeric `value` (default 0). The price is `price.value`, or 0 when there is no price. The shipping component is None exactly when there are no shipping options, and is the first option's cost otherwise. A price that is not a dict raises AttributeError. |
| EbayApi.ParseSeller | server/sources/ebay_api.py:116-131 | Rating and reviews are None exactly when their field is falsy (including 0). Otherwise they are the number and its truncation. `is_official` holds iff `sellerAccountType == "BUSINESS"`. The name is `username`. The parser raises exactly when the seller is not a dict or a truthy feedback field is not a number; a numeric string counts as not a number here (see "Left out"). |
| EbayApi.FirstCostReadable | server/sources/ebay_api.py:108-110 | Reading `float(options[0].get("shippingCost", {}).get("value", 0))` can only succeed when the options are a list whose head is a dict. |
| EbayApi.FirstCost | server/sources/ebay_api.py:109-110 | The first option's cost as `_parse_price` reads it: the `value` of a dict `shippingCost`, and 0 when the value (or the whole `shippingCost`) is missing. |
| EbayApi.PriceShippingMatchesShippingCost | server/sources/ebay_api.py:107-110 | When `_parse_price` and `_parse_shipping` both succeed on a list of options, a truthy first cost gives the same value to both. A falsy (empty) cost is `0.0` for the price and None for the shipping record. |
| EbayApi.FirstOption | server/sources/ebay_api.py:140 | `options[0]` gives a list's head or a string's first character. It raises KeyError on a dict and TypeError on a number. |
| EbayApi.EstimatedEta | server/sources/ebay_api.py:145-147 | With both bounds truthy and numeric and min ≤ max, the result is an integer between the truncated bounds. With both truthy it is the truncated midpoint, or TypeError on non-numbers. Otherwise it is `min_days or max_days`. |
| EbayApi.EtaDays | server/sources/ebay_api.py:158 | The result is None exactly for a falsy estimate. Otherwise it is `int(eta)`. |
| EbayApi.DeliveryEta | server/sources/ebay_api.py:145-158 | With both bounds falsy the estimate is None. With exactly one truthy bound `v` it is `Some(int(v))`, possibly `Some(0)` for a fraction below 1, and never None. With both truthy it succeeds exactly when both are numbers, and the estimate is then `int((min + max) / 2)`, or None when that is 0. |
| EbayApi.EtaWithinRange | server/sources/ebay_api.py:145-158 | For truthy numeric bounds min ≤ max, the estimate exists and lies between `int(min)` and `int(max)`, so within [min, max] for whole-day bounds. It is None exactly when -2 < min + max < 2. |
| EbayApi.MethodOfCode | server/sources/ebay_api.py:149-154 | The method is EXPEDITED iff the lower-cased code contains "expedited" or "express". It is STANDARD iff the code has neither but contains "standard" or "economy". Otherwise it is UNKNOWN. |
| EbayApi.MethodIgnoresCase | server/sources/ebay_api.py:149 | Upper-casing the service code leaves the method unchanged. |
| EbayApi.ParseShippingOption | server/sources/ebay_api.py:140-160 | A dict option succeeds exactly when a truthy `shippingCost` is a dict with a numeric `value` (default 0), the delivery estimate succeeds, and `shippingServiceCode` (default "") is a string. The cost is then None exactly when `shippingCost` is falsy (missing, null, empty, 0 or false), and otherwise its `value`. The ETA is the delivery estimate and the method is chosen from the service code. A non-dict option raises AttributeError. |
| EbayApi.ParseShipping | server/sources/ebay_api.py:133-160 | No (or empty) shipping options give the default `Shipping()`. Otherwise only `shippingOptions[0]` is read. A truthy non-list value raises. |
| EbayApi.ReturnWindow | server/sources/ebay_api.py:172-180 | The window is None for a falsy value or a unit other than DAY/MONTH. Otherwise it is `int(value)` for DAY and `int(value) * 30` for MONTH. |
| EbayApi.ReturnUnitIgnoresCase | server/sources/ebay_api.py:173 | Lower-casing the unit leaves the window unchanged. |
| EbayApi.ParseReturns | server/sources/ebay_api.py:162-186 | The result is `unknown` exactly when `returnTerms` is falsy (missing, null, empty, 0 or false). Truthy dict terms succeed exactly when `returnPeriod` (default `{}`) is a dict whose `unit` (default "") is a string and whose return window succeeds. `available` is then `returnsAccepted` (default False) and the window is the return window of `returnPeriod`. Truthy terms that are not a dict raise AttributeError. |
| EbayApi.KeptWords | server/sources/ebay_api.py:197-199 | Every kept word is longer than two characters and lower case, and there are no more kept words than words. |
| EbayApi.KeptWordsAppend | server/sources/ebay_api.py:197-199 | The comprehension distributes over concatenation, so words are kept in their order. |
| EbayApi.KeptWordsSingle | server/sources/ebay_api.py:197-199 | A single word is kept, lower-cased, exactly when it is longer than two characters. |
| EbayApi.KeyTermCandidates | server/sources/ebay_api.py:198 | The candidates are the kept words of `title.replace("-", " ").split()`. |
| EbayApi.Take | server/sources/ebay_api.py:200 | `[:10]` keeps the first min(10, n) elements, as a prefix. |
| EbayApi.KeyTermCandidatesAreKeyTerms | server/sources/ebay_api.py:197-199 | Every candidate key term is longer than 2 characters and is lower case, with no whitespace and no dash. |
| EbayApi.SpecsOfTitle | server/sources/ebay_api.py:190-206 | Brand is None iff the title is blank. Otherwise it is the title's first whitespace token, unchanged. Model is None. Key terms are the first min(10, n) candidates in title order, each a key term. |
| EbayApi.ExtractSpecs | server/sources/ebay_api.py:188-206 | A string title gives its specs. A non-string title raises AttributeError. |
| EbayApi.KeyTermsIgnoreCase | server/sources/ebay_api.py:197-200 | Titles equal up to letter case have the same key terms. |
| EbayApi.RepeatedWordKeptTwice | server/sources/ebay_api.py:193-200 | A title `w w` has brand `w` in its own case and key terms `[w.lower(), w.lower()]`. Nothing is deduplicated. |
| EbayApi.ListingId | server/sources/ebay_api.py:213 | The id is `itemId` when present, and otherwise `ebay-` followed by the hash of the title (default ""). |
| EbayApi.NormalizeListing | server/sources/ebay_api.py:208-232 | The listing succeeds exactly when every parser succeeds, the title is hashable and `image` is a dict. The source is always EBAY and the currency always USD. The title defaults to "Unknown Item" and the url to "". Each component equals its parser's result. `sponsored` iff `adId` is non-null, `low_stock` iff `quantityLimitPerBuyer` is non-null. The notes are `conditionId: …`. |
| EbayApi.EmptyItemParsers | server/sources/ebay_api.py:81-206 | Every parser accepts an empty item and returns its default. |
| EbayApi.EmptyItemDefaults | server/sources/ebay_api.py:208-232 | An empty item normalizes to the all-defaults listing. |
| EbayApi.NullShippingCostRaises | server/sources/ebay_api.py:107-143 | A first option with `shippingCost: null` is accepted by `_parse_shipping` but makes `_parse_price`, and so the whole listing, raise AttributeError. |
| EbayApi.NormalizeItem | server/sources/ebay_api.py:261-263 | A dict item is normalized. Any other value raises AttributeError. |
| EbayApi.SliceEnd | server/sources/ebay_api.py:263 | The length of `items[:n]` follows Python's slice rules, including negative `n`. |
| EbayApi.SearchResults | server/sources/ebay_api.py:260-264 | The comprehension over `items[:max_results]` succeeds iff each of those items does. It then has one listing per item, in order. On failure it returns the first failing item's error. |
| EbayApi.NormalizeResults | server/sources/ebay_api.py:260-264 | There are never more listings than items, nor more than `max_results`. |
| EbayApi.NormalizeWith | server/sources/ebay_api.py:262 | The bound normalizer gives, for every item, the result of normalizing that item. |
| EbayApi.NormalizeResultsInOrder | server/sources/ebay_api.py:260-264 | `search` succeeds exactly when every item of `items[:max_results]` normalizes. It then returns exactly those listings, one per item, in order. Otherwise it fails with the error of the first item that fails, after only successful items. |
| PyJson.MapResults | server/sources/ebay_api.py:261-264 | A list comprehension, evaluated left to right, either yields `f` of every element in order or stops at the first element that raises. |
| PyJson.Or | server/sources/ebay_api.py:147 | `a or b` is `a` when `a` is truthy and `b` otherwise. |
| PyJson.ToFloat | server/sources/ebay_api.py:105 | `float(v)` succeeds exactly on numbers and booleans. |
| PyJson.ToInt | server/sources/ebay_api.py:124 | `int(v)` succeeds exactly on numbers and booleans, truncating toward zero. |
| PyJson.Get | server/sources/ebay_api.py:104-107 | `m.get(key, default)`: the stored value when the key is present, even a stored None, and `default` otherwise. |
| PyJson.IsNumber | server/sources/ebay_api.py:105 | Booleans count as numbers for `float`, `int` and `+`. None, strings, lists and dicts do not. |
| PyJson.NumberValue | server/sources/ebay_api.py:121-124 | `True` is 1 and `False` is 0, an int or float is its own value, and a number is truthy exactly when that value is not 0. |
| PyJson.Truthy | server/sources/ebay_api.py:108 | `bool(v)`: None, False, zero, and empty strings, lists and dicts are false. |
| PyJson.Present | server/sources/ebay_api.py:225-226 | `item.get(key) is not None`. |
| PyJson.Hashable | server/sources/ebay_api.py:213 | `hash(v)` succeeds exactly on values that are not lists or dicts. |
| PyJson.PyStr | server/sources/ebay_api.py:89 | `str(v)`, exact for None, booleans, integers and strings. |
| PyJson.TruncMonotone | server/sources/ebay_api.py:147 | Truncation toward zero is monotone. |
| PyJson.Trunc | server/sources/ebay_api.py:147 | Truncation toward zero stays within one unit of its argument, on the side of zero. |
| PyJson.AsDict | server/sources/ebay_api.py:104-105 | Only a dict has `.get`. Any other value raises AttributeError. |
| PyText.IsSpaceAscii | server/sources/ebay_api.py:193-198 | The separators of `split()` (`IsSpace`): in ASCII exactly space, tab, line feed, vertical tab, form feed, carriage return and 0x1C-0x1F; in Latin-1 also 0x85 and 0xA0. Letters, digits and `-` are never separators. |
| PyText.IntText | server/sources/ebay_api.py:213 | `str(i)`: a leading `-` exactly for a negative number, then decimal digits without leading zeros that denote the magnitude. |
| PyText.IntTextInjective | server/sources/ebay_api.py:213 | Different hashes give different fallback ids: `str()` of distinct integers differ. |
| PyText.Split | server/sources/ebay_api.py:193 | `str.split()` with no argument: the maximal runs of non-whitespace, in order. |
| PyText.Lower | server/sources/ebay_api.py:87 | `str.lower()`, character by character, on ASCII letters. |
| PyText.Upper | server/sources/ebay_api.py:173 | `str.upper()`, character by character, on ASCII letters. |
| PyText.Contains | server/sources/ebay_api.py:91 | `p in s`: `p` occurs at some offset of `s`. |
| PyText.ReplaceDash | server/sources/ebay_api.py:198 | `s.replace("-", " ")`, character by character. |
| PyText.SplitHeadIsFirstWord | server/sources/ebay_api.py:193-194 | The first token of `split()` is the first whitespace-delimited word of the text. |
| PyText.SplitEmptyIffBlank | server/sources/ebay_api.py:193-194 | `split()` is empty iff the text is all whitespace. |
| PyText.SplitTokens | server/sources/ebay_api.py:198 | Every token of `split()` is non-empty and has no whitespace. |
| PyText.SplitKeepsNonSpace | server/sources/ebay_api.py:198 | Joining the tokens of `split()` gives the text without its whitespace. |
| PyText.SplitIgnoresCase | server/sources/ebay_api.py:198 | Texts equal up to case split into tokens equal up to case. |
| PyText.SplitWordThenRest | server/sources/ebay_api.py:193 | A word followed by whitespace or the end is the first token. |
| PyText.LowerIdempotent | server/sources/ebay_api.py:87 | `lower()` is idempotent. |
| PyText.LowerOfUpper | server/sources/ebay_api.py:149 | `upper().lower()` equals `lower()`. |
| PyText.UpperOfLower | server/sources/ebay_api.py:173 | `lower().upper()` equals `upper()`. |

## Left out

- The OAuth token flow (`_get_access_token`, lines 37-79): it is made of HTTP, base64 credentials and a wall-clock expiry, and its `_access_token`/`_token_expires` fields are the only mutable state.
- The HTTP request, the `limit = min(max_results, 50)` parameter, logging and the `httpx.HTTPError` handler of `search`: these are I/O. The model starts from the decoded `itemSummaries` list, taken as a sequence. A non-list `itemSummaries` is not modelled.
- EbayApi.NormalizeResults: `search`'s default `max_results = 15` (line 234) is not modelled; the limit is always an explicit argument.
- Environment loading (`load_dotenv`, `os.getenv`), `is_configured` and the `ebay_connector` singleton: these are process configuration.
- Python's string hash for the fallback id is randomized per process. It is the parameter `hash`.
- `raw.captured_at` is wall-clock time and is not in `RawData`.
- PyJson.ToFloat, PyJson.ToInt: on a numeric string the text is not parsed. Such a call yields `Err(NumberFromText)` where Python would return a number or raise ValueError. This affects every "succeeds exactly when … numeric" statement above: there, a numeric string is a failure.
- Floating point: numbers are exact reals, with no rounding and no infinities. `int()` of a float truncates toward zero.
- PyText.Lower, PyText.Upper: only ASCII letters are case-mapped, so titles and codes with other letters can give different key terms and methods than in Python.
- PyJson.PyStr: `str()` is exact for None, booleans, integers and strings. A float is rendered by its integer part, and a list or a dict by its brackets alone. A list-valued `condition` such as `["new"]` therefore classifies differently from Python, and `raw.notes` for such ids is approximate.
- `storage.models` is not part of this model. The output records are plain datatypes, with no validation or coercion of field types.
