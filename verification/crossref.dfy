/** `crossref_search_json` in app.py with the HTTP request abstracted: given
    the response's status code and its decoded JSON body, the list of
    "essential" records it returns, or the `{"error": str(e)}` value it
    returns when anything in its `try` block raises. */
module Crossref {
  import opened Wrappers
  import opened Py
  import opened Json

  const OkStatus := 200
  const StatusPrefix := "Crossref returned status "

  /** `item.get("title", ["Untitled"])` default */
  const DefaultTitle := Array([Str("Untitled")])
  /** `item.get("published-print", {}).get("date-parts", [[None]])` defaults */
  const NoPublishedPrint := Object(map[])
  const DefaultDateParts := Array([Array([Null])])

  /** One essential record. `itemType` is the record's "type" key. */
  datatype Essential = Essential(doi: Json, title: Json, publisher: Json, itemType: Json, published: Json, url: Json)

  /** The message of the exception raised on a non-200 status */
  function StatusMessage(status: int): string {
    StatusPrefix + IntToString(status)
  }

  /** Reading the status code back out of such a message */
  function StatusOfMessage(message: string): Option<int> {
    if |StatusPrefix| <= |message| && message[..|StatusPrefix|] == StatusPrefix then ParseInt(message[|StatusPrefix|..])
    else None
  }

  /** The error message names exactly the status that caused it. */
  lemma StatusMessageRoundTrip(status: int)
    ensures StatusOfMessage(StatusMessage(status)) == Some(status)
  {
    assert StatusMessage(status)[|StatusPrefix|..] == IntToString(status);
    IntToStringRoundTrip(status);
  }

  /** `{"error": message}` */
  function ErrorValue(message: string): Json {
    Object(map["error" := Str(message)])
  }

  /** `item.get(key)`, None when absent */
  function Field(fields: map<string, Json>, key: string): Json {
    if key in fields then fields[key] else Null
  }

  /** The title rule: `item.get("title", ["Untitled"])[0]` */
  function Title(fields: map<string, Json>): Result<Json, Raised> {
    First(if "title" in fields then fields["title"] else DefaultTitle)
  }

  /** The published rule: `item.get("published-print", {}).get("date-parts", [[None]])[0]` */
  function Published(fields: map<string, Json>): Result<Json, Raised> {
    var publishedPrint := if "published-print" in fields then fields["published-print"] else NoPublishedPrint;
    var parts :- Get(publishedPrint, "date-parts", DefaultDateParts);
    First(parts)
  }

  /** The dict literal built for one item; its values are evaluated in
      order, so a bad title is reported before a bad publication date. */
  function ProjectItem(item: Json): (r: Result<Essential, Raised>)
    ensures !item.Object? ==> r == Failure(NoAttributeGet(item))
    ensures r.Success? <==> item.Object? && Title(item.fields).Success? && Published(item.fields).Success?
    ensures item.Object? && Title(item.fields).Failure? ==> r == Failure(Title(item.fields).error)
    ensures item.Object? && Title(item.fields).Success? && Published(item.fields).Failure? ==>
      r == Failure(Published(item.fields).error)
    // the plain fields are copied, None when absent
    ensures r.Success? ==> r.value.doi == Field(item.fields, "DOI")
    ensures r.Success? ==> r.value.publisher == Field(item.fields, "publisher")
    ensures r.Success? ==> r.value.itemType == Field(item.fields, "type")
    ensures r.Success? ==> r.value.url == Field(item.fields, "URL")
    ensures r.Success? ==> r.value.title == Title(item.fields).value
    ensures r.Success? ==> r.value.published == Published(item.fields).value
  {
    match item
    case Object(fields) =>
      var title :- Title(fields);
      var published :- Published(fields);
      Success(Essential(Field(fields, "DOI"), title, Field(fields, "publisher"), Field(fields, "type"),
                        published, Field(fields, "URL")))
    case _ => Failure(NoAttributeGet(item))
  }

  /** What the title comes out as: the first list element, "Untitled" when
      the key is absent, and an IndexError for an empty list. */
  lemma TitleRule(fields: map<string, Json>)
    ensures "title" !in fields ==> Title(fields) == Success(Str("Untitled"))
    ensures "title" in fields && fields["title"].Array? && |fields["title"].elems| > 0 ==>
      Title(fields) == Success(fields["title"].elems[0])
    ensures "title" in fields && fields["title"] == Array([]) ==> Title(fields) == Failure(ListIndexOutOfRange)
    ensures "title" in fields && fields["title"] == Null ==> Title(fields).Failure? && Title(fields).error.kind == TypeError
  {
  }

  /** What the publication date comes out as: the first element of
      "date-parts", `[None]` when either key is absent. */
  lemma PublishedRule(fields: map<string, Json>)
    ensures "published-print" !in fields ==> Published(fields) == Success(Array([Null]))
    ensures "published-print" in fields && fields["published-print"].Object? ==>
      var pp := fields["published-print"].fields;
      && ("date-parts" !in pp ==> Published(fields) == Success(Array([Null])))
      && ("date-parts" in pp && pp["date-parts"].Array? && |pp["date-parts"].elems| > 0 ==>
            Published(fields) == Success(pp["date-parts"].elems[0]))
    ensures "published-print" in fields && !fields["published-print"].Object? ==>
      Published(fields) == Failure(NoAttributeGet(fields["published-print"]))
  {
  }

  /** The `for item in items` loop: every item projected in order; the
      first item that raises ends it. */
  function ProjectItems(items: seq<Json>): (r: Result<seq<Essential>, Raised>)
    ensures r.Success? <==> forall i :: 0 <= i < |items| ==> ProjectItem(items[i]).Success?
    ensures r.Success? ==> |r.value| == |items|
    ensures r.Success? ==> forall i :: 0 <= i < |items| ==> r.value[i] == ProjectItem(items[i]).value
  {
    if |items| == 0 then Success([])
    else
      var head :- ProjectItem(items[0]);
      var tail :- ProjectItems(items[1..]);
      assert forall i :: 1 <= i < |items| ==> items[i] == items[1..][i - 1];
      Success([head] + tail)
  }

  /** The error reported is that of the first item that raises. */
  lemma {:induction false} FirstBadItemReported(items: seq<Json>, i: nat)
    requires i < |items| && ProjectItem(items[i]).Failure?
    requires forall j :: 0 <= j < i ==> ProjectItem(items[j]).Success?
    ensures ProjectItems(items) == Failure(ProjectItem(items[i]).error)
  {
    if i > 0 {
      assert items[1..][i - 1] == items[i];
      forall j | 0 <= j < i - 1 ensures ProjectItem(items[1..][j]).Success? {
        assert items[1..][j] == items[j + 1];
      }
      FirstBadItemReported(items[1..], i - 1);
    }
  }

  /** `for item in items` over whatever "items" holds: a list gives its
      elements, a string its characters; an empty dict gives nothing and a
      non-empty one gives string keys, the first of which has no `.get`;
      anything else is not iterable. */
  function Iterate(items: Json): (r: Result<seq<Json>, Raised>)
    ensures items.Array? ==> r == Success(items.elems)
    ensures items.Str? ==> r.Success? && |r.value| == |items.s|
    ensures items.Str? ==> forall i :: 0 <= i < |items.s| ==> r.value[i] == Str([items.s[i]])
    // a dict iterates over its keys: fine when empty, the first key has no `.get` otherwise
    ensures items.Object? ==> (r.Success? <==> |items.fields| == 0)
    ensures items.Object? && |items.fields| == 0 ==> r == Success([])
    ensures items.Object? && |items.fields| > 0 ==> r == Failure(NoAttributeGet(Str("")))
    ensures items.Null? || items.Bool? || items.Number? ==> r.Failure? && r.error.kind == TypeError
  {
    match items
    case Array(elems) => Success(elems)
    case Str(s) => Success(seq(|s|, i requires 0 <= i < |s| => Str([s[i]])))
    case Object(fields) =>
      if |fields| == 0 then Success([]) else Failure(NoAttributeGet(Str("")))
    case _ => Failure(Raised(TypeError, "'" + TypeName(items) + "' object is not iterable"))
  }

  /** `data.get("message", {}).get("items", [])` and the loop over it */
  function Essentials(data: Json): (r: Result<seq<Essential>, Raised>)
    ensures !data.Object? ==> r == Failure(NoAttributeGet(data))
    // a missing "message" or "items" means no records
    ensures data.Object? && "message" !in data.fields ==> r == Success([])
    ensures data.Object? && "message" in data.fields && !data.fields["message"].Object? ==>
      r == Failure(NoAttributeGet(data.fields["message"]))
    ensures data.Object? && "message" in data.fields && data.fields["message"].Object? ==>
      var message := data.fields["message"].fields;
      && ("items" !in message ==> r == Success([]))
      && ("items" in message && Iterate(message["items"]).Failure? ==> r == Failure(Iterate(message["items"]).error))
      && ("items" in message && Iterate(message["items"]).Success? ==> r == ProjectItems(Iterate(message["items"]).value))
  {
    var message :- Get(data, "message", Object(map[]));
    var items :- Get(message, "items", Array([]));
    var elems :- Iterate(items);
    ProjectItems(elems)
  }

  /** One essential record as the dict app.py builds */
  function Render(e: Essential): (r: Json)
    ensures r.Object? && r.fields.Keys == {"doi", "title", "publisher", "type", "published", "url"}
    ensures r.fields["doi"] == e.doi && r.fields["title"] == e.title && r.fields["publisher"] == e.publisher
    ensures r.fields["type"] == e.itemType && r.fields["published"] == e.published && r.fields["url"] == e.url
  {
    Object(map["doi" := e.doi, "title" := e.title, "publisher" := e.publisher, "type" := e.itemType,
               "published" := e.published, "url" := e.url])
  }

  function RenderAll(es: seq<Essential>): (r: seq<Json>)
    ensures |r| == |es|
    ensures forall i :: 0 <= i < |es| ==> r[i] == Render(es[i])
  {
    seq(|es|, i requires 0 <= i < |es| => Render(es[i]))
  }

  /** `crossref_search_json` once the response is in: a list of records, or
      `{"error": str(e)}` for the exception that ended the `try` block. */
  function CrossrefSearchJson(status: int, data: Json): (r: Json)
    ensures status != OkStatus ==> r == ErrorValue(StatusMessage(status))
    ensures status == OkStatus ==> (r.Array? <==> Essentials(data).Success?)
    ensures status == OkStatus && Essentials(data).Failure? ==> r == ErrorValue(Essentials(data).error.message)
  {
    if status != OkStatus then ErrorValue(StatusMessage(status))
    else match Essentials(data)
      case Success(es) => Array(RenderAll(es))
      case Failure(e) => ErrorValue(e.message)
  }

  /** A missing "message" or "items" key is an empty result, not an error. */
  lemma MissingKeysGiveNoRecords(data: Json)
    requires data.Object?
    requires "message" !in data.fields
          || (data.fields["message"].Object? && "items" !in data.fields["message"].fields)
    ensures CrossrefSearchJson(OkStatus, data) == Array([])
  {
  }

  /** One record per item, in item order, when every item projects. */
  lemma OneRecordPerItem(data: Json, items: seq<Json>)
    requires data.Object? && "message" in data.fields
    requires data.fields["message"].Object? && "items" in data.fields["message"].fields
    requires data.fields["message"].fields["items"] == Array(items)
    requires forall i :: 0 <= i < |items| ==> ProjectItem(items[i]).Success?
    ensures CrossrefSearchJson(OkStatus, data).Array?
    ensures |CrossrefSearchJson(OkStatus, data).elems| == |items|
    ensures forall i :: 0 <= i < |items| ==>
      CrossrefSearchJson(OkStatus, data).elems[i] == Render(ProjectItem(items[i]).value)
  {
  }

  /** Record i of the answer holds item i's fields under the record's own
      key names: DOI, publisher, type and URL copied (None when absent), the
      title and the publication date as their rules give them. */
  lemma RecordCopiesItem(data: Json, items: seq<Json>, i: nat)
    requires data.Object? && "message" in data.fields
    requires data.fields["message"].Object? && "items" in data.fields["message"].fields
    requires data.fields["message"].fields["items"] == Array(items)
    requires forall j :: 0 <= j < |items| ==> ProjectItem(items[j]).Success?
    requires i < |items|
    ensures var r := CrossrefSearchJson(OkStatus, data);
      && r.Array? && i < |r.elems| && r.elems[i].Object? && items[i].Object?
      && r.elems[i].fields["doi"] == Field(items[i].fields, "DOI")
      && r.elems[i].fields["publisher"] == Field(items[i].fields, "publisher")
      && r.elems[i].fields["type"] == Field(items[i].fields, "type")
      && r.elems[i].fields["url"] == Field(items[i].fields, "URL")
      && r.elems[i].fields["title"] == Title(items[i].fields).value
      && r.elems[i].fields["published"] == Published(items[i].fields).value
  {
    OneRecordPerItem(data, items);
    assert ProjectItem(items[i]).Success?;
  }

  /** The first item that raises turns the whole answer into its error. */
  lemma BadItemGivesError(data: Json, items: seq<Json>, i: nat)
    requires data.Object? && "message" in data.fields
    requires data.fields["message"].Object? && "items" in data.fields["message"].fields
    requires data.fields["message"].fields["items"] == Array(items)
    requires i < |items| && ProjectItem(items[i]).Failure?
    requires forall j :: 0 <= j < i ==> ProjectItem(items[j]).Success?
    ensures CrossrefSearchJson(OkStatus, data) == ErrorValue(ProjectItem(items[i]).error.message)
  {
    FirstBadItemReported(items, i);
  }

  /** An answer is never ambiguous: a record list is a JSON list, an error
      is a one-key object, and a bad status can be read back from it. */
  lemma StatusErrorNamesStatus(status: int, data: Json)
    requires status != OkStatus
    ensures var r := CrossrefSearchJson(status, data);
      r.Object? && r.fields.Keys == {"error"} && r.fields["error"].Str?
      && StatusOfMessage(r.fields["error"].s) == Some(status)
  {
    StatusMessageRoundTrip(status);
  }
}
