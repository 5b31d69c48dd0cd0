# User recommendation endpoint, modelled in Dafny

This project models the `users/recommendation` API endpoint
(`src/server/api/endpoints/users/recommendation.ts`). The endpoint suggests
accounts for a requester to follow. It works in one of two ways:

- **External strategy.** The instance setting
  `enableExternalUserRecommendation` is on and a requester is signed in. The
  handler fills the engine URL template with the local host name, the
  requester's user name, `limit` and `offset`. It fetches a list of
  descriptors `{name, username, host, description, avatarUrl}` from that
  URL. Then it reconciles them with local identities (`convertUsers`). A
  descriptor that resolves to an account is replaced by that account, packed
  for the requester. A descriptor that does not resolve is returned as it is.
- **Internal strategy.** This runs in every other case. An aggregation over
  the users collection keeps the candidates that:
  - were updated in the last five days;
  - have at least 10 followers, 10 followees and 10 notes;
  - are not followed by the requester, are not the requester and are not hidden;
  - are not bots;
  - have a balance `followingCount / followersCount` strictly between 0.5 and 5.

  It sorts them by follower count, most followed first. It applies `$limit`
  and then `$skip`, and it packs each result.

Everything is written as pure functions over sequences and strings, with
lemmas about them. The handler's collaborators are parameters, gathered in
`Recommendation.Services`:
- the instance settings;
- `config.hostname`;
- `getFriendIds` and `getHideUserIds`;
- the users collection, as a sequence;
- `Date.now()`;
- the HTTP client;
- `resolveUser` and `pack`.

Modules, one per file:

- `Wrappers` (`wrappers.dfy`): `Option` and `Result`.
- `Params` (`params.dfy`): the `limit` and `offset` bounds and defaults.
- `Users` (`users.dfy`): the account fields the endpoint reads.
- `Aggregation` (`aggregation.dfy`): these aggregation stages, over an in-memory sequence:
  - `$match` is `Filter`;
  - `$sort` descending on one key is `SortDesc`, a stable insertion sort;
  - `$limit` is `Limit`;
  - `$skip` is `Skip`.
- `Ranking` (`ranking.dfy`): the internal pipeline. `Candidates` covers the
  three `$match` stages. `Rank` is the whole pipeline, in the source's order.
- `UrlTemplate` (`url_template.dfy`): the `replace` chain that builds the
  engine URL. It models JavaScript's first-occurrence `replace`, including
  the `$` patterns in the replacement string, and `Number.prototype.toString`
  for non-negative integers below 2^53.
- `Reconcile` (`reconcile.dfy`): `convertUsers`.
- `Recommendation` (`recommendation.dfy`): strategy selection, the exclusion
  list, and `Recommend`, which is the handler itself.

`Recommendation.EngineUrl` and `UrlTemplate.Fill` carry no contract of
their own. The lemmas named in their
rows below state their properties.

Points where the code's behaviour is easy to misread, and which the model
follows as written:
- **Default offset.** It is 0 (recommendation.ts:30-33), not 10.
- **External result length.** The external strategy's result is not cut to
  `limit`. Its length is the engine's response length (`ExternalSuccess`).
  "Never longer than `limit`" therefore holds only for the internal strategy
  (`InternalPath`).
- **URL filling.** The four replacements are sequential and each replaces
  only the first occurrence. They are not an order-independent substitution
  (`FillIsSequential`, `ReplaceFirstAt`).
- **Tie order.** The code sorts with the database's `$sort`, which does not
  promise an order among equal follower counts. The model sorts stably, but
  its contracts state only sortedness and permutation. `SortedPermutationsHaveSameKeys` shows that the tie order is
  the only freedom.
- **Pagination.** `$limit` runs before `$skip` (recommendation.ts:104-107).
  So a request with `offset >= limit` gets nothing. The model reproduces this
  (`RankedWindow`, `OffsetAtLimitIsEmpty`).

## Model

| member | source | states |
|---|---|---|
| `Params.Validate` | src/server/api/endpoints/users/recommendation.ts:24-34 | Either rejects an out-of-range `limit` (outside [1,100]) or `offset` (below 0), checking `limit` first, or accepts. Accepts exactly when both given values are in range. Missing values default to 10 and 0, and the accepted parameters satisfy `Valid`. |
| `Recommendation.Recommend` | src/server/api/endpoints/users/recommendation.ts:44-112 | The handler. Only the external strategy can fail; the internal one always succeeds. Its results are stated by `InternalPath`, `AnonymousIsInternal`, `ExternalFailurePropagates` and `ExternalSuccess`. |
| `Recommendation.SelectStrategy` | src/server/api/endpoints/users/recommendation.ts:47-72 | The external strategy is chosen if and only if the setting is on and a requester is present. The external strategy carries that requester. |
| `Recommendation.FollowingIds` | src/server/api/endpoints/users/recommendation.ts:74 | The follow list is empty for an anonymous request. For a signed-in requester it is `getFriendIds` of the requester's id. |
| `Recommendation.EngineUrl` | src/server/api/endpoints/users/recommendation.ts:48-58 | No contract of its own: `Fill` applied to the engine setting, the host name, the requester's user name, `limit` and `offset`. Stated by the `UrlTemplate.Fill*` lemmas. |
| `Recommendation.Excluded` | src/server/api/endpoints/users/recommendation.ts:73-85 | An id is excluded exactly when it is in the requester's follow list or in the hidden list. |
| `Recommendation.AnonymousExcludesHiddenOnly` | src/server/api/endpoints/users/recommendation.ts:74-85 | An anonymous request excludes exactly the hidden list. |
| `Recommendation.PackAll` | src/server/api/endpoints/users/recommendation.ts:110 | One packed entry per ranked user, in rank order. Entry i is `pack(users[i].id, me)`. |
| `Recommendation.InternalUsers` | src/server/api/endpoints/users/recommendation.ts:74-108 | Every user the internal pipeline returns is in the users collection and passes all three `$match` stages, with `since = now - 5 days` and the requester's exclusion list. |
| `Recommendation.InternalPath` | src/server/api/endpoints/users/recommendation.ts:72-111 | Without the setting or without a requester, the handler always succeeds in the model, where the users query cannot fail (see Left out). Its result is the packed internal ranking, at most `limit` long, and empty when `offset >= limit`. |
| `Recommendation.AnonymousIsInternal` | src/server/api/endpoints/users/recommendation.ts:47-77 | An anonymous request gets the internal ranking, with an empty follow list, whatever the settings. |
| `Recommendation.ExternalFailurePropagates` | src/server/api/endpoints/users/recommendation.ts:60-71 | With the setting on and a requester, a failed engine call makes the whole request fail with that same error. There is no fallback to the internal strategy. |
| `Recommendation.ExternalSuccess` | src/server/api/endpoints/users/recommendation.ts:54-71 | With the setting on and a requester, a successful engine call yields one entry per descriptor, in order and without truncation. Entry i is the packed account when resolution succeeds, and the descriptor itself when it fails. |
| `Recommendation.InternalThresholds` | src/server/api/endpoints/users/recommendation.ts:79-99 | Every internally recommended user is in the population and was updated at or after `now - 432000000`. It has `followersCount`, `followingCount` and `notesCount` each at least 10, is not a bot, and satisfies `2*following > followers` and `following < 5*followers`. |
| `Recommendation.InternalBalance` | src/server/api/endpoints/users/recommendation.ts:89-99 | Every internally recommended user has a positive follower count and an exact balance `following/followers` strictly between 0.5 and 5. |
| `Recommendation.InternalExclusions` | src/server/api/endpoints/users/recommendation.ts:73-86 | No internally recommended user is hidden, or followed by the requester. When the follow list contains the requester, as `getFriendIds` promises, the requester is never recommended either. |
| `Recommendation.InternalOrder` | src/server/api/endpoints/users/recommendation.ts:100-103 | The internally recommended users are in non-increasing order of `followersCount`. |
| `Aggregation.Filter` | src/server/api/endpoints/users/recommendation.ts:79-99 | `$match` keeps exactly the input documents satisfying the predicate, each with its input multiplicity, and never lengthens the input. |
| `Aggregation.FilterConcat` | src/server/api/endpoints/users/recommendation.ts:79-99 | `$match` distributes over concatenation, so the surviving documents keep their relative order. |
| `Aggregation.InsertDesc` | src/server/api/endpoints/users/recommendation.ts:100-103 | Inserting into a descending sequence keeps it descending. It adds exactly one copy of the new element. |
| `Aggregation.SortDesc` | src/server/api/endpoints/users/recommendation.ts:100-103 | `$sort: {followersCount: -1}` returns a permutation of its input (same multiset, same length) that is non-increasing in the key. |
| `Aggregation.SortedPermutationsHaveSameKeys` | src/server/api/endpoints/users/recommendation.ts:100-103 | Any two non-increasing permutations of the same documents have the same key at every position. Only the order among ties is left open. |
| `Aggregation.Limit` | src/server/api/endpoints/users/recommendation.ts:104-106 | `$limit n` returns a prefix of length `min(n, |s|)`. |
| `Aggregation.LimitKeepsLargest` | src/server/api/endpoints/users/recommendation.ts:100-106 | On a sorted input, no document that `$limit` drops has a larger key than one it keeps. |
| `Aggregation.Skip` | src/server/api/endpoints/users/recommendation.ts:106-108 | `$skip n` returns `max(0, |s| - n)` documents. Element i is input element `n + i`. |
| `Aggregation.LimitThenSkip` | src/server/api/endpoints/users/recommendation.ts:104-108 | `$limit` then `$skip` keeps the window `[offset, min(limit, n))` of its input, in order, so it returns `max(0, min(limit, n) - offset)` documents. |
| `Ranking.Balance` | src/server/api/endpoints/users/recommendation.ts:89-91 | The `$addFields` balance `fb`: the ratio times `followersCount` is `followingCount`. |
| `Ranking.Candidates` | src/server/api/endpoints/users/recommendation.ts:79-99 | The three `$match` stages never lengthen the population. Membership and multiplicity are stated by `CandidatesExactly`. |
| `Ranking.Rank` | src/server/api/endpoints/users/recommendation.ts:79-108 | The whole pipeline returns at most `limit` users and no more than the population holds. Its ordering, window and eligibility are stated by the `Ranked*` lemmas. |
| `Ranking.BalanceBoundsAreExact` | src/server/api/endpoints/users/recommendation.ts:89-99 | For a positive follower count, the integer tests `2*following > followers` and `following < 5*followers` decide exactly `following/followers > 0.5` and `< 5`. |
| `Ranking.CandidatesExactly` | src/server/api/endpoints/users/recommendation.ts:79-99 | A user survives the three `$match` stages exactly when it is in the population and meets every condition, with its population multiplicity. |
| `Ranking.RankedAreEligible` | src/server/api/endpoints/users/recommendation.ts:79-108 | Every user the pipeline returns is in the population and meets every `$match` condition. |
| `Ranking.RankedInFollowerOrder` | src/server/api/endpoints/users/recommendation.ts:100-108 | The pipeline's output is non-increasing in `followersCount`. |
| `Ranking.RankedWindow` | src/server/api/endpoints/users/recommendation.ts:104-108 | Because `$limit` precedes `$skip`, the output is the window `[offset, min(limit, n))` of the sorted candidates. Its length is `max(0, min(limit, n) - offset)`, which is at most `limit`. |
| `Ranking.OffsetAtLimitIsEmpty` | src/server/api/endpoints/users/recommendation.ts:104-108 | When `offset >= limit`, the pipeline returns nothing, whatever the population. |
| `Ranking.FirstPageIsTop` | src/server/api/endpoints/users/recommendation.ts:100-105 | With offset 0, no eligible user left out has more followers than any user returned. |
| `UrlTemplate.IndexOf` | src/server/api/endpoints/users/recommendation.ts:54-58 | `indexOf` returns -1 exactly when the pattern occurs nowhere. Otherwise it returns a match position before which there is no match. |
| `UrlTemplate.Expand` | src/server/api/endpoints/users/recommendation.ts:55-58 | A replacement string without `$` is inserted verbatim. The `$` patterns themselves are stated by `ExpandPlain` and `ExpandDollar`. |
| `UrlTemplate.ExpandPlain` | src/server/api/endpoints/users/recommendation.ts:55-58 | In a replacement string, a character other than `$` is copied as it is. |
| `UrlTemplate.ExpandDollar` | src/server/api/endpoints/users/recommendation.ts:55-58 | `$$` becomes `$`, `$&` the matched text, `` $` `` the text before the match and `$'` the text after it. A `$` followed by anything else, such as a digit or `<`, is kept literally together with that character. |
| `UrlTemplate.ReplaceFirst` | src/server/api/endpoints/users/recommendation.ts:55 | A string in which the pattern does not occur is returned unchanged. |
| `UrlTemplate.ReplaceByMatchIsIdentity` | src/server/api/endpoints/users/recommendation.ts:55 | Replacing the first match by `$&`, the matched text, gives back the input string. |
| `UrlTemplate.ReplaceFirstAt` | src/server/api/endpoints/users/recommendation.ts:54-58 | `replace` rewrites only the first occurrence. Everything after it, including later occurrences, is copied unchanged. |
| `UrlTemplate.DecimalString` | src/server/api/endpoints/users/recommendation.ts:57-58 | `toString()` of a non-negative integer below 2^53 is a non-empty string of decimal digits with no leading zero. Larger values are printed differently by the source (see Left out). |
| `UrlTemplate.DecimalStringRoundTrip` | src/server/api/endpoints/users/recommendation.ts:57-58 | Reading those digits back gives the number. |
| `UrlTemplate.Fill` | src/server/api/endpoints/users/recommendation.ts:54-58 | No contract of its own: the four `replace` calls in order. Stated by `FillWithoutPlaceholders`, `FillAnyOrder`, `FillEachOnce`, `FillIsSequential` and `FillExample`. |
| `UrlTemplate.FillWithoutPlaceholders` | src/server/api/endpoints/users/recommendation.ts:54-58 | A template containing none of the four placeholders yields itself. |
| `UrlTemplate.PiecesNoMatch` | src/server/api/endpoints/users/recommendation.ts:55-58 | A placeholder cannot match starting inside a brace-free span or inside a different placeholder, whatever text follows. |
| `UrlTemplate.ReplaceStep` | src/server/api/endpoints/users/recommendation.ts:55-58 | On a template of spans and distinct placeholders, one `replace` call rewrites exactly the piece holding its placeholder, or nothing when the placeholder is absent. The result is again such a template. |
| `UrlTemplate.FillAnyOrder` | src/server/api/endpoints/users/recommendation.ts:54-58 | For a template of brace-free spans and placeholders, in any order, each at most once, filling replaces every placeholder by its value and leaves the spans unchanged. The host and user values contain no `{` and no `$`. |
| `UrlTemplate.FillEachOnce` | src/server/api/endpoints/users/recommendation.ts:54-58 | A template with each placeholder once, in host, user, limit, offset order, yields the template with exactly those four spans replaced. This needs brace-free spans and values, and values without `$`. |
| `UrlTemplate.FillIsSequential` | src/server/api/endpoints/users/recommendation.ts:54-58 | The replacements run in sequence. A host value that reads `{{user}}` is overwritten by the user replacement. |
| `UrlTemplate.FillExample` | src/server/api/endpoints/users/recommendation.ts:54-58 | The template `https://eng/api?host={{host}}&user={{user}}&limit={{limit}}&offset={{offset}}`, with `example.social`, `alice`, 5 and 0, gives `https://eng/api?host=example.social&user=alice&limit=5&offset=0`. |
| `Reconcile.ConvertUsers` | src/server/api/endpoints/users/recommendation.ts:125-139 | The output has the same length as the input. Entry i is the packed resolved account when resolution succeeds, and exactly descriptor i when it fails. |
| `Reconcile.ConvertOne` | src/server/api/endpoints/users/recommendation.ts:127-135 | A descriptor comes back unresolved exactly when its resolution fails, and then it is that same descriptor. |
| `Reconcile.ConvertUsersConcat` | src/server/api/endpoints/users/recommendation.ts:126-138 | Conversion distributes over concatenation, so results keep the engine's order. |
| `Reconcile.UnresolvedKept` | src/server/api/endpoints/users/recommendation.ts:127-133 | A descriptor that does not resolve is never dropped. It appears unchanged in the output. |
| `Reconcile.UnresolvableBotPassesThrough` | src/server/api/endpoints/users/recommendation.ts:127-133 | Example: a single descriptor `bot1@remote.example` whose resolution fails comes back as the one-element list holding that descriptor. |

## Left out

- `src/server/api/stream/channels/index.ts` is not part of this model. It is a static table of imported channel modules and holds no logic.
- The HTTP request (recommendation.ts:60-68) is the `request` parameter, which maps a URL and a timeout to a response or an error. Proxy settings, keep-alive, redirect following, the timeout itself and JSON parsing are network behaviour inside that client.
- Database and configuration reads are parameters. These are `fetchMeta`, `config.hostname`, `getFriendIds`, `getHideUserIds` and the users query `User.aggregate` (recommendation.ts:79-108), whose collection is the `population` sequence. Failures of these reads, which would fail the request, are not modelled.
- The database engine is not modelled. Only the stage semantics are, over an in-memory sequence. Missing fields, type coercion and indexes are not modelled. `isBot` is a boolean, so a document without the field is modelled as `false`, which `$ne: true` accepts.
- The balance `$divide` is computed in double-precision floating point. The model tests the balance by integer cross-multiplication, which agrees with exact division (`BalanceBoundsAreExact`). Rounding of the floating-point quotient is not modelled.
- `Date.now()` is the `now` parameter. `ms('5days')` is the constant `FiveDays` = 432000000 ms.
- `resolveUser` is a function to `Option`. A thrown error and a null result are both `None`. The warning it logs on failure is dropped.
- An unresolved descriptor is returned as the five-field `RecommendUser`. The source returns the engine's JSON object itself (recommendation.ts:133), so any extra fields the engine sent would reach the client. Those extra fields are not modelled.
- `pack` is a total function whose result is opaque. If it threw, the whole `Promise.all` would reject. That failure is not modelled.
- `Promise.all` concurrency is modelled as a sequential, index-preserving map.
- `Params.Validate`: `limit` and `offset` are integers. A fractional number, which the number validator would accept, is not modelled. The handler takes `Valid` parameters as a precondition, because validation runs before it.
- `UrlTemplate.Expand`: `$n` and `$<` are treated as literal text. A string pattern has no capture groups, which is what GetSubstitution then prescribes. The host name, user names and digit strings the handler substitutes contain no `$` in practice.
- `UrlTemplate.FillEachOnce`: it covers only the order host, user, limit, offset, as a short worked case for `FillExample`. `FillAnyOrder` covers every order. It assumes that the template spans before the offset placeholder, the host and the user name contain no `{`.
- `UrlTemplate.FillAnyOrder`: it assumes that the template spans, the host and the user name contain no `{`, which is stronger than "contains no placeholder text". A `{` could otherwise join with a value or a neighbouring span into a placeholder. `ReplaceFirstAt` states the exact condition for one step.
- `UrlTemplate.DecimalString`: `toString` is modelled only for integers below 2^53. `offset` has no upper bound (recommendation.ts:30-33). JavaScript prints a number from 2^53 up with its shortest round-trip digits, for example 2^60 as `1152921504606847000`, and from 10^21 up in exponent form such as `1e+21`. The model prints the exact digits in both cases.
- Strings are sequences of Unicode scalar values, while JavaScript's `indexOf` and `replace` work on UTF-16 code units. For well-formed strings, with the ASCII placeholders, the results are the same. A template holding a lone surrogate cannot be represented.
- The response schema in `meta.res` is not modelled, and neither are the route metadata (`desc`, `tags`, `kind`, `requireCredential`).
