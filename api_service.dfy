/**
 * The browser API client of order-cmr/api.js: a service object holding the
 * default request headers and the language, the generic request wrapper, the
 * work-type lookup URL, the file-upload loop, the order payload and the search
 * filter.
 */
module ApiClient {
  import opened Wrappers
  import opened Text

  const ApiBaseUrl := "https://dictionary.test.api.stroyka.kz/api/v1"
  const CmrApiBaseUrl := "https://cmr.test.api.stroyka.kz"
  const WorkTypesBase := ApiBaseUrl + "/dictionary/service?serviceTree=WORK_TYPE&parentId=1"
  const OrderUrl := CmrApiBaseUrl + "/rest/api/v1/order"
  const FilesUrl := CmrApiBaseUrl + "/rest/files"
  const BucketUrl := "https://cmrhubbucket.s3.us-east-1.amazonaws.com"
  const Authorization := "Authorization"

  type Headers = map<string, string>

  /**
   * The header map after `setAuthToken(token)`: a non-empty token sets the
   * Bearer credential (section 2.1 of RFC 6750), an empty one removes it, and
   * no other header changes.
   */
  function WithAuthToken(h: Headers, token: string): (r: Headers)
    ensures token != "" ==> Authorization in r && r[Authorization] == "Bearer " + token
    ensures token == "" ==> Authorization !in r
    ensures forall k :: k != Authorization ==> (k in r <==> k in h)
    ensures forall k :: k != Authorization && k in r ==> r[k] == h[k]
  {
    if token != "" then h[Authorization := "Bearer " + token] else h - {Authorization}
  }

  /** Setting the same token twice is the same as setting it once. */
  lemma AuthTokenIdempotent(h: Headers, token: string)
    ensures WithAuthToken(WithAuthToken(h, token), token) == WithAuthToken(h, token)
  {
  }

  /** `{...base, ...overrides}`: every key of either map, the right-hand value winning. */
  function MergeHeaders(base: Headers, overrides: Headers): (r: Headers)
    ensures r.Keys == base.Keys + overrides.Keys
    ensures forall k :: k in overrides ==> r[k] == overrides[k]
    ensures forall k :: k in base && k !in overrides ==> r[k] == base[k]
  {
    base + overrides
  }

  /** Merging a map that already extends the base gives that map back. */
  lemma MergeExtension(h: Headers, k: string, v: string)
    ensures MergeHeaders(h, h[k := v]) == h[k := v]
  {
  }

  /** The JSON body of a request, abstracted to the one payload the client builds. */
  datatype RequestBody = NoBody | OrderJson(payload: Payload)

  /** The second argument of `makeRequest`; `verb` is its `method`, fetch's GET when absent. */
  datatype Options = Options(verb: string, headers: Headers, body: RequestBody)

  const GetOptions := Options("GET", map[], NoBody)

  datatype Request = Request(url: string, verb: string, headers: Headers, body: RequestBody)

  /** What `fetch` yields: a response with its status and body text, or a thrown error. */
  datatype HttpResponse = HttpResponse(ok: bool, status: int, text: string) | NetworkFailure(message: string)

  /** A decoded response body: a parsed JSON value or the raw text. */
  datatype Body<J> = Json(value: J) | Text(text: string)

  datatype ApiError = HttpError(status: int) | Thrown(message: string)

  datatype Reply<J> = Decoded(body: Body<J>) | Failed(error: ApiError)

  /** The characters of the "looks like a token" check in `makeRequest`. */
  predicate IsTokenChar(c: char)
  {
    ('a' <= c <= 'z') || ('A' <= c <= 'Z') || ('0' <= c <= '9') || c in "@#$%^&*()_+-=[]{};':\"\\|,.<>/?"
  }

  predicate LooksLikeToken(text: string)
  {
    text != "" && forall k :: 0 <= k < |text| ==> IsTokenChar(text[k])
  }

  /**
   * The body-decoding chain of `makeRequest`: `response.json()`, then the text,
   * returned as it is when it looks like a token, else `JSON.parse` of the text,
   * else the text. `parse` is the JSON parser both steps use.
   */
  function DecodeBody<J>(text: string, parse: string -> Option<J>): (r: Body<J>)
    ensures parse(text).Some? ==> r == Json(parse(text).value)
    ensures parse(text).None? ==> r == Text(text)
  {
    match parse(text)
    case Some(v) => Json(v)
    case None =>
      if LooksLikeToken(text) then Text(text)
      else match parse(text)
        case Some(v) => Json(v)
        case None => Text(text)
  }

  /** The decoded body never alters the text it falls back to. */
  lemma DecodedTextIsVerbatim<J>(text: string, parse: string -> Option<J>)
    ensures DecodeBody(text, parse).Text? ==> DecodeBody(text, parse).text == text
    ensures DecodeBody(text, parse).Json? <==> parse(text).Some?
  {
  }

  /** The URL of `getWorkTypes(searchText)`; `encode` stands for `encodeURIComponent`. */
  function WorkTypesUrl(searchText: string, encode: string -> string): (r: string)
    ensures StartsWith(r, WorkTypesBase)
    ensures searchText == "" <==> r == WorkTypesBase
    ensures searchText != "" ==> r[|WorkTypesBase|..] == "&search=" + encode(searchText)
  {
    if searchText != "" then
      var r := WorkTypesBase + "&search=" + encode(searchText);
      assert r[..|WorkTypesBase|] == WorkTypesBase;
      assert |r| > |WorkTypesBase|;
      r
    else WorkTypesBase
  }

  /** `fileItem.file` of an upload: its name and MIME type. */
  datatype FileItem = FileItem(name: string, mimeType: string)

  /** The outcome of one upload: stored with a reference, answered non-ok, or thrown. */
  datatype UploadReply = Stored(fileRef: string) | Rejected | UploadThrew(message: string)

  /** The request of one upload; `authorization` is the service's header, None when unset. */
  datatype UploadRequest = UploadRequest(url: string, authorization: Option<string>, file: FileItem)

  datatype FileKind = Image | File

  /** The OrderFileDto the loop builds for a stored file. */
  datatype OrderFile = OrderFile(kind: FileKind, name: string, ref: string, url: string)

  function FileRecord(item: FileItem, ref: string): (r: OrderFile)
    ensures r.kind == Image <==> StartsWith(item.mimeType, "image/")
    ensures r.name == item.name && r.ref == ref && r.url == BucketUrl
  {
    OrderFile(if StartsWith(item.mimeType, "image/") then Image else File, item.name, ref, BucketUrl)
  }

  /**
   * What `uploadFiles` returns for `files`: one record per stored file in input
   * order, non-ok uploads skipped, and the first thrown error ending the loop.
   */
  function Uploaded(files: seq<FileItem>, auth: Option<string>, upload: UploadRequest -> UploadReply): Result<seq<OrderFile>>
    decreases |files|
  {
    if files == [] then Ok([])
    else match Uploaded(files[..|files| - 1], auth, upload)
      case Err(e) => Err(e)
      case Ok(records) =>
        var last := files[|files| - 1];
        match upload(UploadRequest(FilesUrl, auth, last))
        case Stored(ref) => Ok(records + [FileRecord(last, ref)])
        case Rejected => Ok(records)
        case UploadThrew(m) => Err(m)
  }

  ghost predicate Increasing(idx: seq<nat>)
  {
    forall a, b :: 0 <= a < b < |idx| ==> idx[a] < idx[b]
  }

  /** `rec` is the record the loop makes of `files[k]`, whose upload was stored. */
  ghost predicate RecordOf(rec: OrderFile, files: seq<FileItem>, k: nat, auth: Option<string>, upload: UploadRequest -> UploadReply)
  {
    && k < |files|
    && upload(UploadRequest(FilesUrl, auth, files[k])).Stored?
    && rec == FileRecord(files[k], upload(UploadRequest(FilesUrl, auth, files[k])).fileRef)
  }

  /** The upload of `files[j]` was stored. */
  predicate StoredAt(files: seq<FileItem>, j: nat, auth: Option<string>, upload: UploadRequest -> UploadReply)
    requires j < |files|
  {
    upload(UploadRequest(FilesUrl, auth, files[j])).Stored?
  }

  /**
   * `records[k]` is made of `files[idx[k]]`, with `idx` increasing, and every
   * stored file is among the positions `idx`.
   */
  ghost predicate RecordsAt(records: seq<OrderFile>, files: seq<FileItem>, auth: Option<string>, upload: UploadRequest -> UploadReply, idx: seq<nat>)
  {
    && |idx| == |records| && Increasing(idx)
    && (forall k :: 0 <= k < |idx| ==> RecordOf(records[k], files, idx[k], auth, upload))
    && (forall j: nat :: j < |files| && StoredAt(files, j, auth, upload) ==> j in idx)
  }

  /** `records` are the records of the stored files of `files`, one per stored file, in the files' order. */
  ghost predicate RecordsInOrder(records: seq<OrderFile>, files: seq<FileItem>, auth: Option<string>, upload: UploadRequest -> UploadReply)
  {
    exists idx: seq<nat> :: RecordsAt(records, files, auth, upload, idx)
  }

  /** The positions of the stored files the uploaded records come from. */
  lemma {:induction false} UploadedIndices(files: seq<FileItem>, auth: Option<string>, upload: UploadRequest -> UploadReply) returns (idx: seq<nat>)
    requires Uploaded(files, auth, upload).Ok?
    ensures RecordsAt(Uploaded(files, auth, upload).value, files, auth, upload, idx)
    decreases |files|
  {
    if files == [] {
      idx := [];
    } else {
      var init, last := files[..|files| - 1], files[|files| - 1];
      var records := Uploaded(init, auth, upload).value;
      var idx0 := UploadedIndices(init, auth, upload);
      RecordsAtWiden(records, files, auth, upload, idx0);
      match upload(UploadRequest(FilesUrl, auth, last))
      case Stored(ref) =>
        idx := idx0 + [|files| - 1];
        var rs := records + [FileRecord(last, ref)];
        assert forall k :: 0 <= k < |idx0| ==> rs[k] == records[k] && idx[k] == idx0[k];
        assert RecordOf(rs[|idx0|], files, idx[|idx0|], auth, upload);
        assert forall j :: j in idx0 ==> j in idx;
        assert |files| - 1 in idx;
      case Rejected =>
        idx := idx0;
        assert !StoredAt(files, |files| - 1, auth, upload);
    }
  }

  /** What `RecordsAt` says of a prefix of the files still holds, position by position, of all of them. */
  lemma RecordsAtWiden(records: seq<OrderFile>, files: seq<FileItem>, auth: Option<string>, upload: UploadRequest -> UploadReply, idx0: seq<nat>)
    requires files != []
    requires RecordsAt(records, files[..|files| - 1], auth, upload, idx0)
    ensures forall k :: 0 <= k < |idx0| ==> idx0[k] < |files| - 1 && RecordOf(records[k], files, idx0[k], auth, upload)
    ensures forall j: nat :: j < |files| - 1 && StoredAt(files, j, auth, upload) ==> j in idx0
  {
    var init := files[..|files| - 1];
    forall k | 0 <= k < |idx0|
      ensures idx0[k] < |init| && RecordOf(records[k], files, idx0[k], auth, upload)
    {
      assert RecordOf(records[k], init, idx0[k], auth, upload);
      assert files[idx0[k]] == init[idx0[k]];
    }
    forall j: nat | j < |init| && StoredAt(files, j, auth, upload)
      ensures j in idx0
    {
      assert files[j] == init[j];
      assert StoredAt(init, j, auth, upload);
    }
  }

  /** The uploaded records follow the input order, one per stored file, never more than the input. */
  lemma UploadedInOrder(files: seq<FileItem>, auth: Option<string>, upload: UploadRequest -> UploadReply)
    requires Uploaded(files, auth, upload).Ok?
    ensures |Uploaded(files, auth, upload).value| <= |files|
    ensures RecordsInOrder(Uploaded(files, auth, upload).value, files, auth, upload)
  {
    var idx := UploadedIndices(files, auth, upload);
    IncreasingBounded(idx, |files|);
  }

  /**
   * A file whose upload is not stored is skipped silently: the uploads end in
   * an error exactly when one of them throws.
   */
  lemma {:induction false} UploadedFailsOnlyOnThrow(files: seq<FileItem>, auth: Option<string>, upload: UploadRequest -> UploadReply)
    ensures Uploaded(files, auth, upload).Err? <==>
      exists j :: 0 <= j < |files| && upload(UploadRequest(FilesUrl, auth, files[j])).UploadThrew?
    decreases |files|
  {
    if files != [] {
      var init := files[..|files| - 1];
      UploadedFailsOnlyOnThrow(init, auth, upload);
      assert forall j :: 0 <= j < |init| ==> files[j] == init[j];
    }
  }

  /** An increasing sequence of positions below `n` has at most `n` elements. */
  lemma {:induction false} IncreasingBounded(idx: seq<nat>, n: nat)
    requires Increasing(idx) && forall k :: 0 <= k < |idx| ==> idx[k] < n
    ensures |idx| <= n
    decreases n
  {
    if idx != [] {
      var m := idx[|idx| - 1];
      var init := idx[..|idx| - 1];
      assert forall k :: 0 <= k < |init| ==> init[k] < m;
      IncreasingBounded(init, m);
    }
  }

  /** `{ id, name }` of a category in the payload. */
  datatype NamedRef = NamedRef(id: int, name: string)

  /** The order-form data `createOrder` receives; an empty text stands for a falsy field. */
  datatype OrderData = OrderData(
    workType: NamedRef,
    orderName: string,
    description: string,
    additionalInfo: string,
    planStartDate: string,
    planEndDate: string,
    addressCode: string,
    addressName: string,
    orderAmount: Option<int>,
    advancePercentage: Option<int>,
    advanceAmount: Option<int>,
    negotiable: bool,
    advanceInsurance: bool,
    published: bool,
    files: seq<FileItem>)

  /** The `requestBody` object `createOrder` posts. */
  datatype Payload = Payload(
    serviceType: NamedRef,
    workType: NamedRef,
    name: string,
    description: Option<string>,
    additionalInfo: Option<string>,
    planStartDate: string,
    planEndDate: string,
    addressCode: string,
    addressName: string,
    orderAmount: Option<int>,
    advancePercentage: int,
    advanceAmount: int,
    workTypeId: int,
    serviceTypeId: int,
    negotiable: bool,
    advanceInsurance: bool,
    profileHidden: bool,
    published: bool,
    fileRefs: seq<OrderFile>,
    details: seq<string>)

  const ConstructionWorks := NamedRef(1, "Строительно-монтажные работы")

  /** `x || null` for a text field. */
  function OrNull(s: string): (r: Option<string>)
    ensures r.None? <==> s == ""
    ensures r.Some? ==> r.value == s
  {
    if s == "" then None else Some(s)
  }

  /** `x || 0` for a numeric field (None is `null`/`undefined`). */
  function OrZero(n: Option<int>): (r: int)
    ensures n.Some? ==> r == n.value
    ensures n.None? ==> r == 0
  {
    match n
    case Some(v) => v
    case None => 0
  }

  /** The payload `createOrder` builds from the form data and the uploaded file records. */
  function BuildPayload(data: OrderData, fileRefs: seq<OrderFile>): (p: Payload)
    ensures p.serviceType == ConstructionWorks && p.serviceTypeId == 1 && !p.profileHidden && p.details == []
    ensures p.workTypeId == data.workType.id && p.workType == data.workType
    ensures p.description == OrNull(data.description) && p.additionalInfo == OrNull(data.additionalInfo)
    ensures p.advancePercentage == OrZero(data.advancePercentage) && p.advanceAmount == OrZero(data.advanceAmount)
    ensures p.fileRefs == fileRefs
    ensures p.name == data.orderName && p.orderAmount == data.orderAmount
    ensures p.negotiable == data.negotiable && p.advanceInsurance == data.advanceInsurance && p.published == data.published
  {
    Payload(
      serviceType := ConstructionWorks,
      workType := NamedRef(data.workType.id, data.workType.name),
      name := data.orderName,
      description := OrNull(data.description),
      additionalInfo := OrNull(data.additionalInfo),
      planStartDate := data.planStartDate,
      planEndDate := data.planEndDate,
      addressCode := data.addressCode,
      addressName := data.addressName,
      orderAmount := data.orderAmount,
      advancePercentage := OrZero(data.advancePercentage),
      advanceAmount := OrZero(data.advanceAmount),
      workTypeId := data.workType.id,
      serviceTypeId := 1,
      negotiable := data.negotiable,
      advanceInsurance := data.advanceInsurance,
      profileHidden := false,
      published := data.published,
      fileRefs := fileRefs,
      details := [])
  }

  /**
   * A field of a searched item: a string, an object (its values as the text
   * `join` renders them), `null`, a number or a boolean.
   */
  datatype FieldValue = Str(s: string) | Obj(values: seq<string>) | Null | Num(n: int) | Bool(b: bool)

  type Item = map<string, FieldValue>

  /** The item's field is one the filter can lower-case: a string or a non-null object. */
  predicate Searchable(item: Item, field: string)
  {
    field in item && (item[field].Str? || item[field].Obj?)
  }

  /** The text `filterBySearch` searches in: the string, or the object's values joined by spaces. */
  function FieldText(v: FieldValue): string
    requires v.Str? || v.Obj?
  {
    match v
    case Str(s) => s
    case Obj(values) => Join(values, " ")
  }

  /** The item is kept: its field, lower-cased, contains the lower-cased search. */
  predicate Keeps(item: Item, field: string, search: string)
  {
    Searchable(item, field) && Contains(Lower(FieldText(item[field])), Lower(search))
  }

  const MissingFieldError := "Cannot read properties of undefined (reading 'toLowerCase')"
  const NullFieldError := "Cannot convert undefined or null to object"
  const NotTextError := "value.toLowerCase is not a function"

  /** The TypeError an item whose field is not searchable throws. */
  function FieldError(item: Item, field: string): (r: string)
    ensures field !in item ==> r == MissingFieldError
    ensures field in item && item[field].Null? ==> r == NullFieldError
    ensures field in item && (item[field].Num? || item[field].Bool?) ==> r == NotTextError
  {
    if field !in item then MissingFieldError
    else match item[field]
      case Null => NullFieldError
      case _ => NotTextError
  }

  /** `items.filter(...)` for a non-empty search; an item whose field is not searchable throws. */
  function FilterItems(items: seq<Item>, field: string, search: string): Result<seq<Item>>
    decreases |items|
  {
    if items == [] then Ok([])
    else match FilterItems(items[..|items| - 1], field, search)
      case Err(e) => Err(e)
      case Ok(kept) =>
        var last := items[|items| - 1];
        if !Searchable(last, field) then Err(FieldError(last, field))
        else if Keeps(last, field, search) then Ok(kept + [last])
        else Ok(kept)
  }

  /** `filterBySearch(items, searchText, searchField)`. */
  function FilterBySearch(items: seq<Item>, search: string, field: string): Result<seq<Item>>
  {
    if search == "" then Ok(items) else FilterItems(items, field, search)
  }

  /** `sub[k]` is `whole[idx[k]]`, with `idx` increasing. */
  ghost predicate SelectedAt(sub: seq<Item>, whole: seq<Item>, idx: seq<nat>)
  {
    && |idx| == |sub| && Increasing(idx)
    && forall k :: 0 <= k < |idx| ==> idx[k] < |whole| && sub[k] == whole[idx[k]]
  }

  /** `sub` is `whole` with some elements left out, the rest in their order. */
  ghost predicate IsSubsequence(sub: seq<Item>, whole: seq<Item>)
  {
    exists idx: seq<nat> :: SelectedAt(sub, whole, idx)
  }

  /** The positions `idx` are exactly those of the items whose field contains the search. */
  ghost predicate MatchingPositions(items: seq<Item>, field: string, search: string, idx: seq<nat>)
  {
    forall j: nat :: j < |items| ==> (j in idx <==> Keeps(items[j], field, search))
  }

  /** `kept` is the matching items of `items`, each position once, in their order. */
  ghost predicate KeptExactly(kept: seq<Item>, items: seq<Item>, field: string, search: string)
  {
    exists idx: seq<nat> :: SelectedAt(kept, items, idx) && MatchingPositions(items, field, search, idx)
  }

  /** A selection at exactly the matching positions holds exactly the matching items. */
  lemma SelectedMembers(kept: seq<Item>, items: seq<Item>, field: string, search: string, idx: seq<nat>)
    requires SelectedAt(kept, items, idx) && MatchingPositions(items, field, search, idx)
    ensures forall x :: x in kept <==> x in items && Keeps(x, field, search)
  {
    forall x | x in kept
      ensures x in items && Keeps(x, field, search)
    {
      var k :| 0 <= k < |kept| && kept[k] == x;
      assert idx[k] in idx;
    }
    forall x | x in items && Keeps(x, field, search)
      ensures x in kept
    {
      var j :| 0 <= j < |items| && items[j] == x;
      var k :| 0 <= k < |idx| && idx[k] == j;
      assert kept[k] == x;
    }
  }

  /** The filter fails exactly when some item's field is missing, `null`, a number or a boolean. */
  lemma {:induction false} FilterItemsFails(items: seq<Item>, field: string, search: string)
    ensures FilterItems(items, field, search).Err? <==> exists k :: 0 <= k < |items| && !Searchable(items[k], field)
    decreases |items|
  {
    if items != [] {
      var init, last := items[..|items| - 1], items[|items| - 1];
      FilterItemsFails(init, field, search);
      assert forall k :: 0 <= k < |init| ==> items[k] == init[k];
    }
  }

  /** The positions of the kept items: exactly those of the matching items. */
  lemma {:induction false} FilterItemsIndices(items: seq<Item>, field: string, search: string) returns (idx: seq<nat>)
    requires FilterItems(items, field, search).Ok?
    ensures SelectedAt(FilterItems(items, field, search).value, items, idx)
    ensures MatchingPositions(items, field, search, idx)
    decreases |items|
  {
    if items == [] {
      idx := [];
    } else {
      var init, last := items[..|items| - 1], items[|items| - 1];
      var kept := FilterItems(init, field, search).value;
      var idx0 := FilterItemsIndices(init, field, search);
      SelectedWiden(kept, items, idx0);
      if Keeps(last, field, search) {
        assert FilterItems(items, field, search).value == kept + [last];
        idx := idx0 + [|items| - 1];
        SelectedSnoc(kept, items, idx0);
        MatchingPositionsSnoc(items, field, search, idx0, idx);
      } else {
        assert FilterItems(items, field, search).value == kept;
        idx := idx0;
        MatchingPositionsSnoc(items, field, search, idx0, idx);
      }
    }
  }

  /** Selecting the last item as well appends its position. */
  lemma SelectedSnoc(kept: seq<Item>, items: seq<Item>, idx0: seq<nat>)
    requires items != [] && SelectedAt(kept, items, idx0)
    requires forall k :: 0 <= k < |idx0| ==> idx0[k] < |items| - 1
    ensures SelectedAt(kept + [items[|items| - 1]], items, idx0 + [|items| - 1])
  {
    var idx := idx0 + [|items| - 1];
    assert forall k :: 0 <= k < |idx0| ==> idx[k] == idx0[k] && (kept + [items[|items| - 1]])[k] == kept[k];
  }

  /** A selection from all items but the last is a selection from all of them, below the last position. */
  lemma SelectedWiden(kept: seq<Item>, items: seq<Item>, idx0: seq<nat>)
    requires items != [] && SelectedAt(kept, items[..|items| - 1], idx0)
    ensures SelectedAt(kept, items, idx0)
    ensures forall k :: 0 <= k < |idx0| ==> idx0[k] < |items| - 1
  {
    var init := items[..|items| - 1];
    assert forall k :: 0 <= k < |idx0| ==> kept[k] == init[idx0[k]] == items[idx0[k]];
  }

  /** Appending an item appends its position exactly when it matches. */
  lemma MatchingPositionsSnoc(items: seq<Item>, field: string, search: string, idx0: seq<nat>, idx: seq<nat>)
    requires items != [] && MatchingPositions(items[..|items| - 1], field, search, idx0)
    requires forall k :: 0 <= k < |idx0| ==> idx0[k] < |items| - 1
    requires idx == if Keeps(items[|items| - 1], field, search) then idx0 + [|items| - 1] else idx0
    ensures MatchingPositions(items, field, search, idx)
  {
    var init := items[..|items| - 1];
    forall j: nat | j < |items|
      ensures j in idx <==> Keeps(items[j], field, search)
    {
      if j < |init| {
        assert items[j] == init[j];
        assert j in idx <==> j in idx0;
      } else {
        assert j !in idx0;
      }
    }
  }

  /**
   * The filter fails exactly when some item lacks the field; otherwise it keeps,
   * in order, exactly the items whose field contains the search.
   */
  lemma FilterItemsSpec(items: seq<Item>, field: string, search: string)
    ensures FilterItems(items, field, search).Err? <==> exists k :: 0 <= k < |items| && !Searchable(items[k], field)
    ensures FilterItems(items, field, search).Ok? ==>
      && KeptExactly(FilterItems(items, field, search).value, items, field, search)
      && forall x :: x in FilterItems(items, field, search).value <==> x in items && Keeps(x, field, search)
  {
    FilterItemsFails(items, field, search);
    if FilterItems(items, field, search).Ok? {
      var idx := FilterItemsIndices(items, field, search);
      SelectedMembers(FilterItems(items, field, search).value, items, field, search, idx);
    }
  }

  /**
   * `filterBySearch`: an empty search gives the items back; otherwise it fails
   * exactly when some item's field is not searchable, and keeps, in order,
   * exactly the items whose field contains the search, each once.
   */
  lemma FilterBySearchSpec(items: seq<Item>, search: string, field: string)
    ensures search == "" ==> FilterBySearch(items, search, field) == Ok(items)
    ensures search != "" ==>
      (FilterBySearch(items, search, field).Err? <==> exists k :: 0 <= k < |items| && !Searchable(items[k], field))
    ensures search != "" && FilterBySearch(items, search, field).Ok? ==>
      && KeptExactly(FilterBySearch(items, search, field).value, items, field, search)
      && forall x :: x in FilterBySearch(items, search, field).value <==> x in items && Keeps(x, field, search)
  {
    if search != "" {
      FilterItemsSpec(items, field, search);
    }
  }

  /** On items that all match, the filter keeps every one of them. */
  lemma {:induction false} FilterKeepsMatching(items: seq<Item>, field: string, search: string)
    requires forall k :: 0 <= k < |items| ==> Keeps(items[k], field, search)
    ensures FilterItems(items, field, search) == Ok(items)
    decreases |items|
  {
    if items != [] {
      var init, last := items[..|items| - 1], items[|items| - 1];
      assert forall k :: 0 <= k < |init| ==> init[k] == items[k];
      FilterKeepsMatching(init, field, search);
      assert items == init + [last];
      FilterKeepsLast(init, last, field, search);
    }
  }

  /** A matching item appended to items the filter keeps whole is kept too. */
  lemma FilterKeepsLast(init: seq<Item>, last: Item, field: string, search: string)
    requires FilterItems(init, field, search) == Ok(init) && Keeps(last, field, search)
    ensures FilterItems(init + [last], field, search) == Ok(init + [last])
  {
    assert (init + [last])[..|init|] == init;
  }

  /** Filtering the filtered items again changes nothing. */
  lemma FilterIdempotent(items: seq<Item>, search: string, field: string)
    requires FilterBySearch(items, search, field).Ok?
    ensures FilterBySearch(FilterBySearch(items, search, field).value, search, field) == FilterBySearch(items, search, field)
  {
    if search != "" {
      var kept := FilterItems(items, field, search).value;
      FilterItemsSpec(items, field, search);
      assert forall k :: 0 <= k < |kept| ==> kept[k] in kept;
      FilterKeepsMatching(kept, field, search);
    }
  }

  /** The service object: default headers sent with every request, and a language. */
  class ApiService {
    var headers: Headers
    var language: string

    constructor ()
      ensures headers == map["Content-Type" := "application/json"] && language == "kk"
    {
      headers := map["Content-Type" := "application/json"];
      language := "kk";
    }

    method SetAuthToken(token: string)
      modifies this
      ensures headers == WithAuthToken(old(headers), token) && language == old(language)
    {
      if token != "" {
        headers := headers[Authorization := "Bearer " + token];
      } else {
        headers := headers - {Authorization};
      }
    }

    method SetLanguage(lang: string)
      modifies this
      ensures language == lang && headers == old(headers)
    {
      language := lang;
    }

    /** The request `makeRequest(url, options)` hands to `fetch`. */
    function RequestFor(url: string, options: Options): (r: Request)
      reads this
      ensures r.url == url && r.verb == options.verb && r.body == options.body
      ensures r.headers.Keys == headers.Keys + options.headers.Keys
      ensures forall k :: k in r.headers ==> r.headers[k] == if k in options.headers then options.headers[k] else headers[k]
    {
      Request(url, options.verb, MergeHeaders(headers, options.headers), options.body)
    }

    /**
     * `makeRequest(url, options)`: `send` stands for `fetch`; a thrown fetch and
     * a non-ok status are errors, an ok body is decoded.
     */
    function MakeRequest<J>(url: string, options: Options, send: Request -> HttpResponse, parse: string -> Option<J>): (r: Reply<J>)
      reads this
      ensures send(RequestFor(url, options)).NetworkFailure? ==> r == Failed(Thrown(send(RequestFor(url, options)).message))
      ensures send(RequestFor(url, options)).HttpResponse? && !send(RequestFor(url, options)).ok ==>
                r == Failed(HttpError(send(RequestFor(url, options)).status))
      ensures r.Decoded? <==> send(RequestFor(url, options)).HttpResponse? && send(RequestFor(url, options)).ok
      ensures r.Decoded? ==> r.body == DecodeBody(send(RequestFor(url, options)).text, parse)
    {
      match send(RequestFor(url, options))
      case NetworkFailure(m) => Failed(Thrown(m))
      case HttpResponse(ok, status, text) =>
        if !ok then Failed(HttpError(status)) else Decoded(DecodeBody(text, parse))
    }

    /** `getWorkTypes(searchText)`. */
    function GetWorkTypes<J>(searchText: string, encode: string -> string, send: Request -> HttpResponse, parse: string -> Option<J>): Reply<J>
      reads this
    {
      MakeRequest(WorkTypesUrl(searchText, encode), GetOptions, send, parse)
    }

    /** The `Authorization` header an upload carries. */
    function AuthHeader(): Option<string>
      reads this
    {
      if Authorization in headers then Some(headers[Authorization]) else None
    }

    /** `uploadFiles(fileList)`: uploads one file after the other, collecting the records. */
    method UploadFiles(files: seq<FileItem>, upload: UploadRequest -> UploadReply) returns (r: Result<seq<OrderFile>>)
      ensures r == Uploaded(files, AuthHeader(), upload)
    {
      var auth := AuthHeader();
      var records: seq<OrderFile> := [];
      var i := 0;
      while i < |files|
        invariant 0 <= i <= |files|
        decreases |files| - i
        invariant Uploaded(files[..i], auth, upload) == Ok(records)
      {
        assert files[..i + 1][..i] == files[..i];
        match upload(UploadRequest(FilesUrl, auth, files[i])) {
          case Stored(ref) =>
            records := records + [FileRecord(files[i], ref)];
          case Rejected =>
          case UploadThrew(m) =>
            assert Uploaded(files[..i + 1], auth, upload) == Err(m);
            UploadedAbortsOnError(files, auth, upload, i + 1);
            return Err(m);
        }
        i := i + 1;
      }
      assert files[..i] == files;
      return Ok(records);
    }

    /** The request `createOrder` posts once the files are uploaded. */
    function CreateOrderRequest(data: OrderData, fileRefs: seq<OrderFile>): (r: Request)
      reads this
      ensures r.url == OrderUrl && r.verb == "POST"
      ensures r.headers == headers["language" := "kk"]
      ensures r.body == OrderJson(BuildPayload(data, fileRefs))
    {
      MergeExtension(headers, "language", "kk");
      RequestFor(OrderUrl, Options("POST", MergeHeaders(headers, map["language" := "kk"]), OrderJson(BuildPayload(data, fileRefs))))
    }

    /** `createOrder(orderData)`: upload the files (if any), then post the payload. */
    method CreateOrder<J>(data: OrderData, upload: UploadRequest -> UploadReply, send: Request -> HttpResponse, parse: string -> Option<J>)
      returns (r: Reply<J>)
      ensures data.files == [] ==> r == MakeRequest(OrderUrl, Options("POST", headers["language" := "kk"], OrderJson(BuildPayload(data, []))), send, parse)
      ensures data.files != [] && Uploaded(data.files, AuthHeader(), upload).Err? ==>
                r == Failed(Thrown(Uploaded(data.files, AuthHeader(), upload).error))
      ensures data.files != [] && Uploaded(data.files, AuthHeader(), upload).Ok? ==>
                r == MakeRequest(OrderUrl, Options("POST", headers["language" := "kk"],
                                   OrderJson(BuildPayload(data, Uploaded(data.files, AuthHeader(), upload).value))), send, parse)
    {
      var fileRefs: seq<OrderFile> := [];
      if |data.files| > 0 {
        var uploaded := UploadFiles(data.files, upload);
        if uploaded.Err? {
          return Failed(Thrown(uploaded.error));
        }
        fileRefs := uploaded.value;
      }
      var options := Options("POST", MergeHeaders(headers, map["language" := "kk"]), OrderJson(BuildPayload(data, fileRefs)));
      MergeExtension(headers, "language", "kk");
      assert options.headers == headers["language" := "kk"];
      r := MakeRequest(OrderUrl, options, send, parse);
    }
  }

  /** Once an upload throws, the whole loop ends with that error. */
  lemma {:induction false} UploadedAbortsOnError(files: seq<FileItem>, auth: Option<string>, upload: UploadRequest -> UploadReply, n: nat)
    requires n <= |files| && Uploaded(files[..n], auth, upload).Err?
    ensures Uploaded(files, auth, upload) == Uploaded(files[..n], auth, upload)
    decreases |files| - n
  {
    if n < |files| {
      assert files[..n + 1][..n] == files[..n];
      UploadedAbortsOnError(files, auth, upload, n + 1);
    } else {
      assert files[..n] == files;
    }
  }
}
