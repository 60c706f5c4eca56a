# Portfolio blog feed: Medium normaliser and platform tabs

This project models two small pieces of logic from a personal portfolio site.

1. **The Medium feed function** (`supabase/functions/fetch-medium-posts/index.ts`). It asks an
   RSS-to-JSON bridge for a Medium user's feed, checks the HTTP response and the payload's
   `status`, and maps every feed item to a post record. Any failure becomes the envelope
   `{error, posts: []}` with HTTP status 500.
2. **The blog page's platform tabs** (`src/pages/Blog.tsx`). The page has three tabs: all posts,
   LinkedIn posts, and Medium posts. Each tab has a count badge. The page lists the posts of the
   selected tab and shows "No posts found" when that list is empty.

Modules:

- `Wrappers`: `Option` and `Result`.
- `Sequences`: the order-preserving subsequence relation, and `MapAll`. `MapAll` is
  `Array.prototype.map` with a callback that may throw: the first failure aborts the whole map.
- `Decimal`: how a template literal renders a natural number below 10^21 (every number rendered here is), and a parser that undoes it.
- `Html`: the tag stripper `replace(/<[^>]*>/g, '')`, written as a left-to-right scan.
- `Posts`: the `BlogPost` record and the two-valued `Platform`.
- `MediumFeed`: the item record of the bridge, the per-item transform, the response gating and
  the reply envelope.
- `Blog`: the tab filter, the badge counts and the empty-list message.

The Medium function behaves as follows:

- It does not sort posts by date.
- It drops no items: every item is mapped, in order.
- It never falls back to mock data.
- An unparseable or missing `pubDate` makes `toISOString` throw. That fails the whole batch with
  status 500 and the message "Invalid time value". The date is never defaulted to "now".

## Model

| member | source | states |
|---|---|---|
| Html.StripTags | supabase/functions/fetch-medium-posts/index.ts:37 | The stripped text is a subsequence of the input. Every surviving `<` has no `>` after it. A text without `<` comes back unchanged. |
| Html.StripTextThenTag | supabase/functions/fetch-medium-posts/index.ts:37 | Tag-free text before a complete tag is kept, the tag is deleted, and stripping goes on after its `>`. |
| Html.DropTag | supabase/functions/fetch-medium-posts/index.ts:37 | A complete tag at the front is deleted through its first `>`, and the scan resumes right after it. |
| Html.KeepPlain | supabase/functions/fetch-medium-posts/index.ts:37 | A character other than `<` at the front is kept. |
| Html.StripBoldExample | supabase/functions/fetch-medium-posts/index.ts:37 | `<b>hi</b>` becomes `hi`. |
| Html.StripShortens | supabase/functions/fetch-medium-posts/index.ts:37 | Stripping never makes the text longer. |
| Html.StripWithoutTags | supabase/functions/fetch-medium-posts/index.ts:37 | A text in which no `<` is followed by a `>` is left unchanged. |
| Html.StripIdempotent | supabase/functions/fetch-medium-posts/index.ts:37 | Stripping twice gives the same text as stripping once. |
| Html.StripNestedOpen | supabase/functions/fetch-medium-posts/index.ts:37 | A match runs from a `<` to the first later `>`, even across another `<`: `<a<b>x` becomes `x`. |
| Html.StripUnclosed | supabase/functions/fetch-medium-posts/index.ts:37 | A `<` with no later `>` is kept: `a<b` stays as it is. |
| Html.IndexOf | supabase/functions/fetch-medium-posts/index.ts:37 | Finds the first `>` that ends a match, or says there is none. |
| MediumFeed.OrElse | supabase/functions/fetch-medium-posts/index.ts:36-41 | JavaScript's logical-or default on an optional string: an absent or empty value takes the fallback, any other value is kept. |
| MediumFeed.IsOkStatus | supabase/functions/fetch-medium-posts/index.ts:19 | `response.ok` holds exactly for statuses of the 2xx class. |
| MediumFeed.ContentLength | supabase/functions/fetch-medium-posts/index.ts:32 | The content length is used when it is non-zero. Otherwise the description length is used. With neither, the length is 0. |
| MediumFeed.ReadMinutes | supabase/functions/fetch-medium-posts/index.ts:33 | The minutes are at least 1. Zero characters give 1 minute. For n > 0, the result is the smallest m with n <= 1000m, which is ceil(n/1000). |
| MediumFeed.ReadTimeLabel | supabase/functions/fetch-medium-posts/index.ts:47 | The label ends with " min read". Before it stand digits with no leading zero that parse back to the number of minutes. |
| Decimal.NatToString | supabase/functions/fetch-medium-posts/index.ts:47 | Renders a number as a non-empty string of decimal digits with no leading zero, except for "0" itself. |
| Decimal.ParseRendered | supabase/functions/fetch-medium-posts/index.ts:47 | Parsing a rendered number gives back the number. |
| Decimal.RenderingInjective | supabase/functions/fetch-medium-posts/index.ts:47 | Different numbers give different read-time digits. |
| MediumFeed.CleanDescription | supabase/functions/fetch-medium-posts/index.ts:36-37 | The cleaned text is the first min(200, length) characters of the stripped description. A missing description counts as empty. |
| MediumFeed.Excerpt | supabase/functions/fetch-medium-posts/index.ts:36-42 | A stripped text shorter than 200 characters is the excerpt as it is. Otherwise the excerpt is its first 200 characters plus "...". That includes a text of exactly 200 characters that was not cut. The excerpt is at most 203 characters. A missing description gives "". |
| MediumFeed.TransformItem | supabase/functions/fetch-medium-posts/index.ts:30-48 | The callback fails exactly when the item's date does not convert, and then with the invalid-date error. |
| MediumFeed.BuildPost | supabase/functions/fetch-medium-posts/index.ts:39-48 | The record built for an item has platform Medium, the converted date and the item's link. The id is a non-empty guid, or else the random id. A missing or empty title becomes "Medium Article". Missing categories become ["Medium", "Article"]; a present list is kept. |
| MediumFeed.TransformItemFields | supabase/functions/fetch-medium-posts/index.ts:39-48 | The platform is always Medium. A non-empty guid becomes the id; otherwise the random id is used. A missing or empty title becomes "Medium Article". Missing categories become ["Medium", "Article"]; a present list, even an empty one, is kept. |
| Sequences.MapAll | supabase/functions/fetch-medium-posts/index.ts:30-49 | The map succeeds iff every callback succeeds. Then the result has the same length and order as the input. Otherwise the error is the one from the first failing element. |
| MediumFeed.TransformItems | supabase/functions/fetch-medium-posts/index.ts:30-49 | The batch succeeds iff every item's date converts. Then there is one post per item, in item order. |
| MediumFeed.Gate | supabase/functions/fetch-medium-posts/index.ts:17-49 | In order: a failed request, a status outside 200-299, an unparseable body and a payload status other than "ok" each give their own error. Missing `items` gives []. Success implies every check passed. |
| MediumFeed.GateSuccess | supabase/functions/fetch-medium-posts/index.ts:19-49 | The `try` block gets through iff the response is ok, the payload status is "ok" and every item's date converts. It then yields one Medium post per item. |
| MediumFeed.FetchMediumPosts | supabase/functions/fetch-medium-posts/index.ts:14-65 | The reply status is 200 or 500. It is 500 exactly when an error is present, and then the posts are empty. It is 200 iff the response is ok, the payload status is "ok" and every item's date converts. Then there is one post per item, each with platform Medium. |
| MediumFeed.Message | supabase/functions/fetch-medium-posts/index.ts:20-59 | A host failure keeps the host's message. An HTTP failure's message is "RSS2JSON API error: " followed by digits with no leading zero that read back as the status. |
| MediumFeed.MessagesDistinct | supabase/functions/fetch-medium-posts/index.ts:20-43 | The failures the function distinguishes (HTTP status, payload status, invalid date) have pairwise different messages, and different HTTP statuses give different messages. |
| MediumFeed.FetchOutcomes | supabase/functions/fetch-medium-posts/index.ts:19-59 | The exact reply for each failure: a failed request, HTTP status outside 200-299, bad JSON, or a status other than "ok". Each has its message. Missing `items` gives `{posts: []}` with status 200. |
| MediumFeed.OneBadDateFailsBatch | supabase/functions/fetch-medium-posts/index.ts:43 | One item whose date does not convert turns the whole reply into status 500 with "Invalid time value" and no posts. |
| MediumFeed.SuccessKeepsItemOrder | supabase/functions/fetch-medium-posts/index.ts:30-53 | On success, post i is the transform of item i. |
| Blog.FilterPlatform | src/pages/Blog.tsx:79 | The filter's result is a subsequence of the posts, and all its posts have the platform. Each post of that platform appears as often as in the input; no other post appears. |
| Blog.FilterUnique | src/pages/Blog.tsx:79 | Any order-preserving selection of posts of the platform that is as long as the filter's result equals it. So the filter keeps exactly those posts, in original order. |
| Blog.FilterLongest | src/pages/Blog.tsx:79 | No order-preserving selection of posts of one platform is longer than the filter's result. |
| Blog.FilterKeepsMatching | src/pages/Blog.tsx:79 | A list whose posts all have the platform passes the filter unchanged. |
| Blog.FilterIdempotent | src/pages/Blog.tsx:79 | Filtering an already filtered list by the same platform changes nothing. |
| Blog.FilteredPosts | src/pages/Blog.tsx:77-79 | The "all" tab lists every post unchanged. A platform tab lists an order-preserving selection made of exactly that platform's posts. |
| Blog.PlatformCountsPartition | src/pages/Blog.tsx:119-141 | The LinkedIn badge plus the Medium badge equals the "All Posts" badge. |
| Blog.SelectedBadgeIsListLength | src/pages/Blog.tsx:77-141 | The selected tab's badge equals the length of the listed posts. |
| Blog.BadgeCount | src/pages/Blog.tsx:119-141 | A badge is at most the number of posts. The "All Posts" badge is the number of posts. A badge is zero iff no post belongs to its tab. |
| Blog.FilteredEmptyIff | src/pages/Blog.tsx:77-79 | The listed posts are empty iff no post belongs to the selected tab. |
| Blog.ShowsNoPostsMessage | src/pages/Blog.tsx:209 | "No posts found" is shown iff no post belongs to the selected tab. |
| Posts.BlogPost | src/pages/Blog.tsx:9-18 | The post record: id, title, excerpt, date, platform (LinkedIn or Medium only), url, tags and read time. |

## Left out

- HTTP serving, the OPTIONS preflight and the CORS headers are left out. They do not affect the posts or the error envelope.
- The outbound `fetch` and `response.json()` are left out: they are I/O. Their outcomes are an input (`Upstream`), and the host's error messages are carried as given.
- Console logging is left out.
- `new Date(d).toISOString().split('T')[0]` is host date code. It is the parameter `isoDate`, a partial function (`None` means it throws). A missing `pubDate` always fails, because `new Date(undefined)` is an invalid date.
- `Math.random().toString()` for items without a guid is nondeterministic. It is the parameter `randomId`, indexed by item position.
- The model counts Dafny `char`s (Unicode scalar values); the source's `.length` and `substring(0, 200)` count UTF-16 code units. For text with characters outside the Basic Multilingual Plane, such as emoji, the read time, the 200-character cut and the ellipsis can differ, and `substring` can split a surrogate pair, which no `char` can hold.
- Only the shapes the function handles are modelled. Values of unexpected JSON types are left out, for example a non-string `title` or a non-array `items`.
- A JSON `null` field is left out: `None` stands for an absent field. For most fields `null` acts like an absent value, but `new Date(null)` is 1970-01-01 and converts, while `DateConverts` fails a missing `pubDate`.
- Numbers of 10^21 or more, which JavaScript renders in exponent form, are left out. No read time or HTTP status comes near that bound.
- `toLocaleDateString` in the blog page is host date formatting, and is left out.
- JSX rendering and the page's static mock posts are left out. The tab logic takes the post list as a parameter.
- The LinkedIn function is a network client that does not transform data, and every branch returns `posts: []`. It is not part of this model.
- The landing page (`src/pages/Index.tsx`) is left out. It is UI animation with floating-point and random values.
