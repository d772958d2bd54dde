/** `fetch_book_info`: one lookup against the OpenBD endpoint, and the
    extraction of title, imprint name and first price from the decoded body.
    The HTTP exchange is an input here (a `Response`); what is modelled is
    every branch taken on it, down to the constant empty triple. */
module BookInfo {

  datatype Option<T> = None | Some(value: T)

  /** A decoded JSON document, as `json.loads` hands it to Python:
      null, booleans, integers, strings, lists and dicts. */
  datatype Json =
    | Null
    | Bool(b: bool)
    | Num(n: int)
    | Str(s: string)
    | Arr(items: seq<Json>)
    | Obj(fields: map<string, Json>)

  /** What `requests.get` and `response.json()` produce for one request:
      either the request itself failed (connection error, timeout, bad URL),
      or a response arrived with a status code and a body that decodes
      to a JSON value (`Some`) or does not (`None`). */
  datatype Response =
    | TransportFailure
    | Received(status: int, body: Option<Json>)

  /** `response.raise_for_status()` raises for client and server errors. */
  predicate IsHttpError(status: int) {
    400 <= status < 600
  }

  /** Python's truthiness of a decoded value (`not data` is its negation). */
  predicate Truthy(v: Json) {
    match v
    case Null => false
    case Bool(b) => b
    case Num(n) => n != 0
    case Str(s) => s != []
    case Arr(items) => items != []
    case Obj(fields) => fields != map[]
  }

  /** One subscript on a decoded value: `v[k]` for a string key, or `v[0]`. */
  datatype Step = Key(name: string) | Index0

  /** `v[step]`, or `None` where Python raises: a missing key (KeyError),
      an empty list or string (IndexError), a subscript the value does not
      support (TypeError). A dict's keys are strings, so `d[0]` is a
      KeyError; `s[0]` on a string is its first character. */
  function Subscript(v: Json, step: Step): Option<Json> {
    match step
    case Key(k) =>
      if v.Obj? && k in v.fields then Some(v.fields[k]) else None
    case Index0 =>
      match v
      case Arr(items) => if items != [] then Some(items[0]) else None
      case Str(s) => if s != [] then Some(Str(s[..1])) else None
      case _ => None
  }

  /** A chain of subscripts `v[p0][p1]...`, `None` as soon as one raises. */
  function Walk(v: Json, path: seq<Step>): Option<Json>
    decreases |path|
  {
    if path == [] then Some(v)
    else
      match Subscript(v, path[0])
      case None => None
      case Some(w) => Walk(w, path[1..])
  }

  /** The key paths below `data[0]`. */
  const TitlePath: seq<Step> := [Key("onix"), Key("DescriptiveDetail"), Key("TitleDetail"),
                                 Key("TitleElement"), Key("TitleText"), Key("content")]
  const PublisherPath: seq<Step> := [Key("onix"), Key("PublishingDetail"), Key("Imprint"),
                                     Key("ImprintName")]
  const PricePath: seq<Step> := [Key("onix"), Key("ProductSupply"), Key("SupplyDetail"),
                                 Key("Price"), Index0, Key("PriceAmount")]

  /** The three values handed back: the source returns whatever the paths
      hold, and the empty string for each when anything fails. */
  datatype Info = Info(title: Json, publisher: Json, price: Json)

  const NoInfo: Info := Info(Str(""), Str(""), Str(""))

  /** Which exit of `fetch_book_info` is taken; the failure kinds differ only
      in the error line they log. */
  datatype Lookup =
    | FetchFailed               // "Error fetching data for ISBN ..."
    | NoData                    // "No data found for ISBN ..."
    | ParseFailed               // "Error parsing data for ISBN ..."
    | Found(info: Info)

  /** The branches of `fetch_book_info`, in the order the source takes them. */
  function LookUp(resp: Response): Lookup {
    match resp
    case TransportFailure => FetchFailed
    case Received(status, body) =>
      if IsHttpError(status) then FetchFailed
      else
        match body
        case None => ParseFailed
        case Some(data) =>
          if !Truthy(data) then NoData
          else
            match Subscript(data, Index0)
            case None => ParseFailed
            case Some(record) =>
              if record == Null then NoData
              else
                match (Walk(record, TitlePath), Walk(record, PublisherPath), Walk(record, PricePath))
                case (Some(t), Some(p), Some(pr)) => Found(Info(t, p, pr))
                case _ => ParseFailed
  }

  /** `fetch_book_info`'s return value: never an exception, and every
      failure degrades to the empty triple. */
  function FetchBookInfo(resp: Response): (r: Info)
    ensures resp.TransportFailure? ==> r == NoInfo
    ensures resp.Received? && IsHttpError(resp.status) ==> r == NoInfo
    ensures resp.Received? && resp.body.Some? && !Truthy(resp.body.value) ==> r == NoInfo
    ensures (resp.Received? && resp.body.Some? &&
             Subscript(resp.body.value, Index0) == Some(Null)) ==> r == NoInfo
  {
    match LookUp(resp)
    case Found(info) => info
    case _ => NoInfo
  }

  /** The response got past `raise_for_status` and decoded as JSON. */
  predicate Decoded(resp: Response) {
    resp.Received? && !IsHttpError(resp.status) && resp.body.Some?
  }

  /** `not data` holds for null, false, zero and the empty string, list and
      dict, and for no other value. */
  lemma FalsyValues(v: Json)
    ensures !Truthy(v) <==>
      v == Null || v == Bool(false) || v == Num(0) || v == Str("") || v == Arr([]) || v == Obj(map[])
  {
  }

  /** A key subscript succeeds only on a dict holding that key, and `[0]`
      only on a non-empty list or string; each gives the element there. */
  lemma SubscriptSucceeds(v: Json, step: Step)
    ensures Subscript(v, step).Some? <==>
      (step.Key? && v.Obj? && step.name in v.fields) ||
      (step.Index0? && ((v.Arr? && v.items != []) || (v.Str? && v.s != [])))
    ensures step.Key? && v.Obj? && step.name in v.fields ==>
      Subscript(v, step) == Some(v.fields[step.name])
    ensures step.Index0? && v.Arr? && v.items != [] ==> Subscript(v, step) == Some(v.items[0])
    ensures step.Index0? && v.Str? && v.s != [] ==> Subscript(v, step) == Some(Str([v.s[0]]))
  {
    if step.Index0? && v.Str? && v.s != [] {
      assert v.s[..1] == [v.s[0]];
    }
  }

  /** Which exit is taken. The request fails on a transport failure or on
      any status from 400 to 599. "No data" is a falsy body or a null first
      element. A parse failure is a body that does not decode, or a truthy
      body whose first element is missing or lacks one of the three paths. */
  lemma LookUpExits(resp: Response)
    ensures LookUp(resp) == FetchFailed <==>
      resp.TransportFailure? || 400 <= resp.status < 600
    ensures LookUp(resp) == NoData <==>
      Decoded(resp) && (!Truthy(resp.body.value) || Subscript(resp.body.value, Index0) == Some(Null))
    ensures LookUp(resp) == ParseFailed <==>
      resp.Received? && !IsHttpError(resp.status) &&
      (resp.body.None? ||
       (Truthy(resp.body.value) && Subscript(resp.body.value, Index0) != Some(Null) &&
        !(Walk(resp.body.value, [Index0] + TitlePath).Some? &&
          Walk(resp.body.value, [Index0] + PublisherPath).Some? &&
          Walk(resp.body.value, [Index0] + PricePath).Some?)))
  {
    FoundIff(resp);
  }

  /** Subscripting along `p + q` is subscripting along `p`, then along `q`. */
  lemma {:induction false} WalkAppend(v: Json, p: seq<Step>, q: seq<Step>)
    ensures Walk(v, p + q) == match Walk(v, p) case None => None case Some(w) => Walk(w, q)
    decreases |p|
  {
    if p == [] {
      assert p + q == q;
    } else {
      assert (p + q)[0] == p[0];
      assert (p + q)[1..] == p[1..] + q;
      match Subscript(v, p[0])
      case None =>
      case Some(w) => WalkAppend(w, p[1..], q);
    }
  }

  /** Nothing can be subscripted below a null. */
  lemma WalkNull(path: seq<Step>)
    requires path != []
    ensures Walk(Null, path) == None
  {
  }

  /** A lookup succeeds exactly when the response decoded and all three full
      paths `data[0]["onix"]...` resolve; the triple is then what they hold. */
  lemma FoundIff(resp: Response)
    ensures LookUp(resp).Found? <==>
      Decoded(resp) &&
      Walk(resp.body.value, [Index0] + TitlePath).Some? &&
      Walk(resp.body.value, [Index0] + PublisherPath).Some? &&
      Walk(resp.body.value, [Index0] + PricePath).Some?
    ensures LookUp(resp).Found? ==>
      LookUp(resp).info == Info(Walk(resp.body.value, [Index0] + TitlePath).value,
                                Walk(resp.body.value, [Index0] + PublisherPath).value,
                                Walk(resp.body.value, [Index0] + PricePath).value)
  {
    if Decoded(resp) {
      var data := resp.body.value;
      WalkAppend(data, [Index0], TitlePath);
      WalkAppend(data, [Index0], PublisherPath);
      WalkAppend(data, [Index0], PricePath);
      assert Walk(data, [Index0]) == Subscript(data, Index0);
      match Subscript(data, Index0)
      case None =>
      case Some(record) =>
        assert Truthy(data);
        if record == Null {
          WalkNull(TitlePath);
        }
    }
  }

  /** All or nothing: the triple is either the empty one, or the three full
      paths all resolved and it holds exactly their values. A record that
      lacks any one field yields no field at all. */
  lemma AllOrNothing(resp: Response)
    ensures var r := FetchBookInfo(resp);
      r == NoInfo ||
      (Decoded(resp) &&
       Walk(resp.body.value, [Index0] + TitlePath) == Some(r.title) &&
       Walk(resp.body.value, [Index0] + PublisherPath) == Some(r.publisher) &&
       Walk(resp.body.value, [Index0] + PricePath) == Some(r.price))
  {
    FoundIff(resp);
  }

  /** A record of the shape the endpoint serves, holding only the three
      paths that are read. */
  function SampleRecord(title: Json, imprint: Json, prices: seq<Json>): Json {
    Obj(map["onix" := Obj(map["DescriptiveDetail" := Descriptive(title),
                              "PublishingDetail" := Publishing(imprint),
                              "ProductSupply" := Supply(prices)])])
  }

  function Descriptive(title: Json): Json {
    Obj(map["TitleDetail" := Obj(map["TitleElement" :=
      Obj(map["TitleText" := Obj(map["content" := title])])])])
  }

  function Publishing(imprint: Json): Json {
    Obj(map["Imprint" := Obj(map["ImprintName" := imprint])])
  }

  function Supply(prices: seq<Json>): Json {
    Obj(map["SupplyDetail" := Obj(map["Price" := Arr(prices)])])
  }

  /** Subscripting by a key the dict holds, then along the rest. */
  lemma WalkKey(v: Json, k: string, rest: seq<Step>)
    requires v.Obj? && k in v.fields
    ensures Walk(v, [Key(k)] + rest) == Walk(v.fields[k], rest)
  {
    assert ([Key(k)] + rest)[1..] == rest;
  }

  /** The title path of a sample record leads to its title. */
  lemma SampleTitle(title: Json, imprint: Json, prices: seq<Json>)
    ensures Walk(SampleRecord(title, imprint, prices), TitlePath) == Some(title)
  {
    var record := SampleRecord(title, imprint, prices);
    var d := Descriptive(title);
    WalkKey(record, "onix", TitlePath[1..]);
    WalkKey(record.fields["onix"], "DescriptiveDetail", TitlePath[2..]);
    WalkKey(d, "TitleDetail", TitlePath[3..]);
    WalkKey(d.fields["TitleDetail"], "TitleElement", TitlePath[4..]);
    WalkKey(d.fields["TitleDetail"].fields["TitleElement"], "TitleText", TitlePath[5..]);
    WalkKey(d.fields["TitleDetail"].fields["TitleElement"].fields["TitleText"], "content", []);
    assert TitlePath == [Key("onix")] + TitlePath[1..];
  }

  /** The imprint path of a sample record leads to its imprint name. */
  lemma SamplePublisher(title: Json, imprint: Json, prices: seq<Json>)
    ensures Walk(SampleRecord(title, imprint, prices), PublisherPath) == Some(imprint)
  {
    var record := SampleRecord(title, imprint, prices);
    var p := Publishing(imprint);
    WalkKey(record, "onix", PublisherPath[1..]);
    WalkKey(record.fields["onix"], "PublishingDetail", PublisherPath[2..]);
    WalkKey(p, "Imprint", PublisherPath[3..]);
    WalkKey(p.fields["Imprint"], "ImprintName", []);
    assert PublisherPath == [Key("onix")] + PublisherPath[1..];
  }

  /** The price path of a sample record reads the amount of its first
      price, and fails on an empty price list. */
  lemma SamplePrice(title: Json, imprint: Json, prices: seq<Json>)
    ensures Walk(SampleRecord(title, imprint, prices), PricePath) ==
      if prices == [] then None else Walk(prices[0], [Key("PriceAmount")])
  {
    var record := SampleRecord(title, imprint, prices);
    var sup := Supply(prices);
    WalkKey(record, "onix", PricePath[1..]);
    WalkKey(record.fields["onix"], "ProductSupply", PricePath[2..]);
    WalkKey(sup, "SupplyDetail", PricePath[3..]);
    WalkKey(sup.fields["SupplyDetail"], "Price", PricePath[4..]);
    assert PricePath == [Key("onix")] + PricePath[1..];
    assert PricePath[4..] == [Index0, Key("PriceAmount")];
  }

  /** A complete record yields its title, its imprint name and the amount
      of its first price; later prices are ignored. */
  lemma CompleteRecord(status: int, title: Json, imprint: Json, amount: Json, later: seq<Json>)
    requires !IsHttpError(status)
    ensures var prices := [Obj(map["PriceAmount" := amount])] + later;
      FetchBookInfo(Received(status, Some(Arr([SampleRecord(title, imprint, prices)]))))
        == Info(title, imprint, amount)
  {
    var prices := [Obj(map["PriceAmount" := amount])] + later;
    var record := SampleRecord(title, imprint, prices);
    var data := Arr([record]);
    assert Truthy(data) && Subscript(data, Index0) == Some(record) && record != Null;
    assert Walk(record, TitlePath) == Some(title) by { SampleTitle(title, imprint, prices); }
    assert Walk(record, PublisherPath) == Some(imprint) by { SamplePublisher(title, imprint, prices); }
    assert Walk(record, PricePath) == Some(amount) by {
      SamplePrice(title, imprint, prices);
      WalkKey(prices[0], "PriceAmount", []);
    }
    assert LookUp(Received(status, Some(data))) == Found(Info(title, imprint, amount));
  }

  /** A record with a title and an imprint but an empty price list yields
      the empty triple, not the two fields it has. */
  lemma NoPriceNoFields(status: int, title: Json, imprint: Json)
    requires !IsHttpError(status)
    ensures FetchBookInfo(Received(status, Some(Arr([SampleRecord(title, imprint, [])])))) == NoInfo
  {
    SamplePrice(title, imprint, []);
  }

  /** The endpoint answers `[null]` for an unknown identifier. */
  lemma UnknownIdentifier()
    ensures LookUp(Received(200, Some(Arr([Null])))) == NoData
    ensures FetchBookInfo(Received(200, Some(Arr([Null])))) == NoInfo
  {
  }
}
