/** The Medium feed function: it gates the RSS-to-JSON bridge's response and
    turns every feed item into a post record, or answers with an error
    envelope. The outbound request, the JSON parser and the host's date
    conversion are inputs of the model. */
module MediumFeed {
  import opened Wrappers
  import opened Sequences
  import opened Decimal
  import opened Html
  import opened Posts

  /** One item of the bridge's `items` array; every field may be absent. */
  datatype RssItem = RssItem(
    title: Option<string>,
    pubDate: Option<string>,
    link: Option<string>,
    guid: Option<string>,
    description: Option<string>,
    content: Option<string>,
    categories: Option<seq<string>>
  )

  /** The object the function emits per item. `url` is absent when the item
      has no link. */
  datatype MediumPost = MediumPost(
    id: string,
    title: string,
    excerpt: string,
    date: string,
    platform: Platform,
    url: Option<string>,
    tags: seq<string>,
    readTime: string
  )

  /** The parsed payload of the bridge. */
  datatype Feed = Feed(status: Option<string>, items: Option<seq<RssItem>>)

  /** The outcome of the outbound request: it failed before a response
      arrived, or it produced an HTTP status and a body that parsed as the
      payload or failed to parse. Error messages of the host are carried as
      given. */
  datatype Upstream =
    | NetworkFailure(message: string)
    | Unparseable(httpStatus: nat, message: string)
    | Response(httpStatus: nat, feed: Feed)

  /** Why the function answered with its error envelope. */
  datatype FeedError =
    | HostError(message: string)
    | HttpError(status: nat)
    | ErrorStatus
    | InvalidDate

  /** The function's answer: HTTP status, the `error` field when present,
      and the `posts` field. */
  datatype Reply = Reply(status: nat, error: Option<string>, posts: seq<MediumPost>)

  const ExcerptLimit: nat := 200
  const Ellipsis := "..."
  const DefaultTitle := "Medium Article"
  const DefaultTags := ["Medium", "Article"]
  const ReadTimeSuffix := " min read"

  /** `x || fallback` for an optional string: JavaScript treats an absent
      value and the empty string alike as false. */
  function OrElse(x: Option<string>, fallback: string): (r: string)
    ensures x.Some? && x.value != "" ==> r == x.value
    ensures (x.None? || x.value == "") ==> r == fallback
  {
    if x.Some? && |x.value| > 0 then x.value else fallback
  }

  /** `Response.ok` of the Fetch standard: a status in the range 200 to 299,
      that is, a status of the 2xx class. */
  predicate IsOkStatus(status: nat)
    ensures IsOkStatus(status) <==> status / 100 == 2
  {
    200 <= status <= 299
  }

  /** `item.content?.length || item.description?.length || 0`. */
  function ContentLength(item: RssItem): (n: nat)
    ensures item.content.Some? && item.content.value != "" ==> n == |item.content.value|
    ensures (item.content.None? || item.content.value == "") && item.description.Some? ==> n == |item.description.value|
    ensures (item.content.None? || item.content.value == "") && item.description.None? ==> n == 0
  {
    if item.content.Some? && |item.content.value| != 0 then |item.content.value|
    else if item.description.Some? && |item.description.value| != 0 then |item.description.value|
    else 0
  }

  /** `Math.max(1, Math.ceil(n / 1000))`: whole minutes at 1000 characters a
      minute, rounded up, and never less than one. */
  function ReadMinutes(n: nat): (m: nat)
    ensures 1 <= m
    ensures n == 0 ==> m == 1
    ensures 0 < n ==> (m - 1) * 1000 < n <= m * 1000
  {
    var minutes := (n + 999) / 1000;
    if minutes < 1 then 1 else minutes
  }

  /** `` `${minutes} min read` ``: the label ends with " min read" and what
      precedes it reads back as the number of minutes. */
  function ReadTimeLabel(minutes: nat): (shown: string)
    ensures |ReadTimeSuffix| < |shown|
    ensures shown[|shown| - |ReadTimeSuffix|..] == ReadTimeSuffix
    ensures var digits := shown[..|shown| - |ReadTimeSuffix|];
      && (forall i :: 0 <= i < |digits| ==> IsDigit(digits[i]))
      && (digits[0] == '0' ==> digits == "0")
      && ParseDecimal(digits) == minutes
  {
    var digits := NatToString(minutes);
    ParseRendered(minutes);
    var shown := digits + ReadTimeSuffix;
    assert shown[..|shown| - |ReadTimeSuffix|] == digits;
    shown
  }

  /** The text at most `ExcerptLimit` characters long that
      `description.replace(/<[^>]*>/g, '').substring(0, 200)` yields. */
  function CleanDescription(item: RssItem): (c: string)
    ensures var text := StripTags(OrElse(item.description, ""));
      |c| == (if |text| < ExcerptLimit then |text| else ExcerptLimit) && c == text[..|c|]
  {
    var text := StripTags(OrElse(item.description, ""));
    if |text| < ExcerptLimit then text else text[..ExcerptLimit]
  }

  /** The excerpt: the cleaned description, followed by an ellipsis exactly
      when the cleaned text fills the 200-character cap, which includes a
      stripped description of exactly 200 characters that was not cut. */
  function Excerpt(item: RssItem): (e: string)
    ensures var text := StripTags(OrElse(item.description, ""));
      && (|text| < ExcerptLimit ==> e == text)
      && (ExcerptLimit <= |text| ==> e == text[..ExcerptLimit] + Ellipsis)
    ensures |e| <= ExcerptLimit + |Ellipsis|
    ensures item.description.None? ==> e == ""
  {
    var clean := CleanDescription(item);
    clean + (if |clean| == ExcerptLimit then Ellipsis else "")
  }

  /** Whether the host turns the item's `pubDate` into a date: `new Date(undefined)`
      is an invalid date, so an item without one never converts. */
  predicate DateConverts(item: RssItem, isoDate: string -> Option<string>) {
    item.pubDate.Some? && isoDate(item.pubDate.value).Some?
  }

  /** The `items.map` callback for one item. `fallbackId` stands for the
      random identifier drawn when the item has no guid, and `isoDate` for
      `new Date(d).toISOString().split('T')[0]`, which fails (throws) on an
      invalid date. */
  function TransformItem(item: RssItem, fallbackId: string, isoDate: string -> Option<string>): (r: Result<MediumPost, FeedError>)
    ensures r.Failure? <==> !DateConverts(item, isoDate)
    ensures r.Failure? ==> r.error == InvalidDate
  {
    if !DateConverts(item, isoDate) then Failure(InvalidDate)
    else Success(BuildPost(item, fallbackId, isoDate(item.pubDate.value).value))
  }

  /** The object literal of the callback, once the date has converted. */
  function BuildPost(item: RssItem, fallbackId: string, date: string): (post: MediumPost)
    ensures post.platform == Medium && post.date == date && post.url == item.link
    ensures item.guid.Some? && item.guid.value != "" ==> post.id == item.guid.value
    ensures item.guid.None? || item.guid.value == "" ==> post.id == fallbackId
    ensures item.title.Some? && item.title.value != "" ==> post.title == item.title.value
    ensures item.title.None? || item.title.value == "" ==> post.title == DefaultTitle
    ensures item.categories.Some? ==> post.tags == item.categories.value
    ensures item.categories.None? ==> post.tags == DefaultTags
  {
    MediumPost(
      id := OrElse(item.guid, fallbackId),
      title := OrElse(item.title, DefaultTitle),
      excerpt := Excerpt(item),
      date := date,
      platform := Medium,
      url := item.link,
      tags := item.categories.GetOr(DefaultTags),
      readTime := ReadTimeLabel(ReadMinutes(ContentLength(item)))
    )
  }

  /** The fields of a transformed item: the platform is always Medium, a
      missing or empty guid or title takes its fallback, a missing category
      list becomes the default tags while a present one (even empty) is kept. */
  lemma TransformItemFields(item: RssItem, fallbackId: string, isoDate: string -> Option<string>)
    requires DateConverts(item, isoDate)
    ensures TransformItem(item, fallbackId, isoDate).Success?
    ensures var post := TransformItem(item, fallbackId, isoDate).value;
      && post.platform == Medium
      && post.date == isoDate(item.pubDate.value).value
      && post.url == item.link
      && (item.guid.Some? && item.guid.value != "" ==> post.id == item.guid.value)
      && (item.guid.None? || item.guid.value == "" ==> post.id == fallbackId)
      && (item.title.Some? && item.title.value != "" ==> post.title == item.title.value)
      && (item.title.None? || item.title.value == "" ==> post.title == DefaultTitle)
      && (item.categories.Some? ==> post.tags == item.categories.value)
      && (item.categories.None? ==> post.tags == DefaultTags)
      && post.excerpt == Excerpt(item)
      && post.readTime == ReadTimeLabel(ReadMinutes(ContentLength(item)))
  {
  }

  /** `items.map(callback)`: every item in order, with `randomId(i)` the
      identifier drawn for the item at index `i`; the first item whose date
      fails to convert aborts the whole batch. */
  function TransformItems(items: seq<RssItem>, randomId: nat -> string, isoDate: string -> Option<string>): (r: Result<seq<MediumPost>, FeedError>)
    ensures r.Success? <==> forall i :: 0 <= i < |items| ==> DateConverts(items[i], isoDate)
    ensures r.Failure? ==> r.error == InvalidDate
    ensures r.Success? ==> |r.value| == |items|
    ensures r.Success? ==> forall i :: 0 <= i < |items| ==>
      TransformItem(items[i], randomId(i), isoDate) == Success(r.value[i])
  {
    var callback := (item: RssItem, i: nat) => TransformItem(item, randomId(i), isoDate);
    var r := MapAll(items, callback);
    assert forall i :: 0 <= i < |items| ==> callback(items[i], i) == TransformItem(items[i], randomId(i), isoDate);
    if r.Failure? then
      var k :| 0 <= k < |items| && callback(items[k], k) == Failure(r.error);
      assert TransformItem(items[k], randomId(k), isoDate).Failure?;
      r
    else
      r
  }

  /** The body of the `try` block: the ok check, the payload status check
      and the transformation of `data.items`, or `[]` when it is absent. */
  function Gate(upstream: Upstream, randomId: nat -> string, isoDate: string -> Option<string>): (r: Result<seq<MediumPost>, FeedError>)
    ensures upstream.NetworkFailure? ==> r == Failure(HostError(upstream.message))
    ensures !upstream.NetworkFailure? && !IsOkStatus(upstream.httpStatus) ==> r == Failure(HttpError(upstream.httpStatus))
    ensures upstream.Unparseable? && IsOkStatus(upstream.httpStatus) ==> r == Failure(HostError(upstream.message))
    ensures upstream.Response? && IsOkStatus(upstream.httpStatus) && upstream.feed.status != Some("ok") ==> r == Failure(ErrorStatus)
    ensures upstream.Response? && IsOkStatus(upstream.httpStatus) && upstream.feed.status == Some("ok") && upstream.feed.items.None? ==> r == Success([])
    ensures r.Success? ==> upstream.Response? && IsOkStatus(upstream.httpStatus) && upstream.feed.status == Some("ok")
  {
    match upstream
    case NetworkFailure(message) => Failure(HostError(message))
    case Unparseable(status, message) =>
      if !IsOkStatus(status) then Failure(HttpError(status)) else Failure(HostError(message))
    case Response(status, feed) =>
      if !IsOkStatus(status) then Failure(HttpError(status))
      else if feed.status != Some("ok") then Failure(ErrorStatus)
      else
        match feed.items
        case None => Success([])
        case Some(items) => TransformItems(items, randomId, isoDate)
  }

  const HttpErrorPrefix := "RSS2JSON API error: "

  /** `error.message` of what the `try` block threw. The message of an HTTP
      failure ends in the status, which reads back from it. */
  function Message(e: FeedError): (m: string)
    ensures e.HostError? ==> m == e.message
    ensures e.HttpError? ==>
      && |HttpErrorPrefix| < |m|
      && m[..|HttpErrorPrefix|] == HttpErrorPrefix
      && (forall i :: |HttpErrorPrefix| <= i < |m| ==> IsDigit(m[i]))
      && (m[|HttpErrorPrefix|] == '0' ==> m[|HttpErrorPrefix|..] == "0")
      && ParseDecimal(m[|HttpErrorPrefix|..]) == e.status
  {
    match e
    case HostError(message) => message
    case HttpError(status) =>
      var digits := NatToString(status);
      ParseRendered(status);
      var m := HttpErrorPrefix + digits;
      assert m[|HttpErrorPrefix|..] == digits;
      m
    case ErrorStatus => "RSS2JSON API returned error status"
    case InvalidDate => "Invalid time value"
  }

  /** The function's answer to a GET request: `{posts}` with status 200, or
      `{error, posts: []}` with status 500 for any failure. */
  function FetchMediumPosts(upstream: Upstream, randomId: nat -> string, isoDate: string -> Option<string>): (reply: Reply)
    ensures reply.status == 200 || reply.status == 500
    ensures reply.status == 500 <==> reply.error.Some?
    ensures reply.status == 500 ==> reply.posts == []
    ensures reply.status == 200 <==>
      && upstream.Response?
      && IsOkStatus(upstream.httpStatus)
      && upstream.feed.status == Some("ok")
      && (upstream.feed.items.Some? ==>
            forall i :: 0 <= i < |upstream.feed.items.value| ==> DateConverts(upstream.feed.items.value[i], isoDate))
    ensures reply.status == 200 ==>
      && |reply.posts| == |upstream.feed.items.GetOr([])|
      && forall i :: 0 <= i < |reply.posts| ==> reply.posts[i].platform == Medium
  {
    GateSuccess(upstream, randomId, isoDate);
    match Gate(upstream, randomId, isoDate)
    case Success(posts) => Reply(200, None, posts)
    case Failure(e) => Reply(500, Some(Message(e)), [])
  }

  /** When the `try` block gets through: every check passed and every date
      converted, and it yields one Medium post per item. */
  lemma GateSuccess(upstream: Upstream, randomId: nat -> string, isoDate: string -> Option<string>)
    ensures Gate(upstream, randomId, isoDate).Success? <==>
      && upstream.Response?
      && IsOkStatus(upstream.httpStatus)
      && upstream.feed.status == Some("ok")
      && (upstream.feed.items.Some? ==>
            forall i :: 0 <= i < |upstream.feed.items.value| ==> DateConverts(upstream.feed.items.value[i], isoDate))
    ensures Gate(upstream, randomId, isoDate).Success? ==>
      var posts := Gate(upstream, randomId, isoDate).value;
      && |posts| == |upstream.feed.items.GetOr([])|
      && forall i :: 0 <= i < |posts| ==> posts[i].platform == Medium
  {
    var r := Gate(upstream, randomId, isoDate);
    if r.Success? && upstream.feed.items.Some? {
      var items := upstream.feed.items.value;
      forall i | 0 <= i < |r.value|
        ensures r.value[i].platform == Medium
      {
        assert TransformItem(items[i], randomId(i), isoDate) == Success(r.value[i]);
      }
    }
  }

  /** Each way the function can end: the three failures before the items
      are looked at, a failing date conversion, and success, where the posts
      are the transformed items in their original order. */
  lemma FetchOutcomes(upstream: Upstream, randomId: nat -> string, isoDate: string -> Option<string>)
    ensures var reply := FetchMediumPosts(upstream, randomId, isoDate);
      && (upstream.NetworkFailure? ==> reply == Reply(500, Some(upstream.message), []))
      && (!upstream.NetworkFailure? && !IsOkStatus(upstream.httpStatus) ==>
            reply == Reply(500, Some(HttpErrorPrefix + NatToString(upstream.httpStatus)), []))
      && (upstream.Unparseable? && IsOkStatus(upstream.httpStatus) ==> reply == Reply(500, Some(upstream.message), []))
      && (upstream.Response? && IsOkStatus(upstream.httpStatus) && upstream.feed.status != Some("ok") ==>
            reply == Reply(500, Some("RSS2JSON API returned error status"), []))
      && ((upstream.Response? && IsOkStatus(upstream.httpStatus) && upstream.feed.status == Some("ok") &&
           upstream.feed.items.None?) ==> reply == Reply(200, None, []))
  {
  }

  /** When some item's date does not convert, the whole batch fails with the
      host's message for an invalid date, even if every other item is fine. */
  lemma OneBadDateFailsBatch(upstream: Upstream, randomId: nat -> string, isoDate: string -> Option<string>, k: nat)
    requires upstream.Response? && IsOkStatus(upstream.httpStatus) && upstream.feed.status == Some("ok")
    requires upstream.feed.items.Some? && k < |upstream.feed.items.value|
    requires !DateConverts(upstream.feed.items.value[k], isoDate)
    ensures FetchMediumPosts(upstream, randomId, isoDate) == Reply(500, Some("Invalid time value"), [])
  {
  }

  /** On success the posts are the callback's results for the items, in order. */
  lemma SuccessKeepsItemOrder(upstream: Upstream, randomId: nat -> string, isoDate: string -> Option<string>)
    requires FetchMediumPosts(upstream, randomId, isoDate).status == 200
    ensures var posts := FetchMediumPosts(upstream, randomId, isoDate).posts;
      var items := upstream.feed.items.GetOr([]);
      |posts| == |items| &&
      forall i :: 0 <= i < |items| ==> TransformItem(items[i], randomId(i), isoDate) == Success(posts[i])
  {
  }

  /** The function's own failures give different messages, so the message
      tells which check failed and, for an HTTP failure, the status. */
  lemma MessagesDistinct(e1: FeedError, e2: FeedError)
    requires !e1.HostError? && !e2.HostError?
    ensures Message(e1) == Message(e2) <==> e1 == e2
  {
    var p := HttpErrorPrefix;
    if e1 != e2 {
      if e1.HttpError? && e2.HttpError? {
        assert ParseDecimal(Message(e1)[|p|..]) != ParseDecimal(Message(e2)[|p|..]);
      } else if e1.HttpError? {
        LacksHttpPrefix(e2);
      } else if e2.HttpError? {
        LacksHttpPrefix(e1);
      } else {
        assert |Message(e1)| != |Message(e2)|;
      }
    }
  }

  /** The fixed messages do not start like the message of an HTTP failure. */
  lemma LacksHttpPrefix(e: FeedError)
    requires e.ErrorStatus? || e.InvalidDate?
    ensures |Message(e)| < |HttpErrorPrefix| || Message(e)[..|HttpErrorPrefix|] != HttpErrorPrefix
  {
    if e.ErrorStatus? {
      assert Message(e)[..|HttpErrorPrefix|][13] == 'r' != HttpErrorPrefix[13];
    }
  }
}
