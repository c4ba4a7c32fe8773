# Hunter Pro lead discovery, modelled in Dafny

Hunter Pro is a small FastAPI service for sales agents in Egypt. It
searches the web through the Serper search API, classifies each result as a
buyer's request, a seller's offer or neither, pulls Egyptian mobile numbers
out of the good ones and stores them as leads for the signed-in user. This
project models the engine behind it (`Hunter` in hunter.py, repeated in
app.py with the same behaviour) together with the rule tables and guards around that engine:

- `Config` (config.dfy): parsing of the comma-separated search-key variable,
  the role table, `validate` and `get_status`.
- `Auth` (auth.dfy): `check_permission` over the role table and the decisions
  of `authenticate`, with the database query and the JWT library abstracted.
- `WhatsApp` (whatsapp.dfy): the enabled flag, normalisation of local
  numbers to `+20…`, and the mapping of Twilio's reply to a result.
- `Classifier` (classifier.dfy): `analyze_content`, that is, the keyword
  scores, the good/bad/neutral verdict and the phone pattern
  `01[0125][0-9]{8}` scanned the way `re.findall` scans.
- `LeadHunter` (hunter.dfy):
  - a `Hunter` class for the key cursor, the pacing timestamp and `search`;
  - a `Clock` class, the time source, which only moves forward;
  - a `LeadStore` class, the leads table, whose insert may fail.
- `Routes` (routes.dfy): the guards of `login`, `start_hunt` and
  `send_whatsapp`, and the counts of `get_stats`.
- `Text` and `Basics` supply the Python string operations used and an
  `Option` type.

The outside world enters as parameters:
- the search provider is a function from the request to its outcome (a
  reply with status and body, a timeout or an exception);
- Twilio is a function from the posted form to its outcome;
- the users and leads queries arrive as their results;
- token creation is a function that issues claims or raises.

Key rotation and pacing are stated on ghost histories that the `Hunter`
keeps: every key handed out, and the moment of every granted request. The
class invariant `Valid()` ties the cursor to the number of keys handed out.
It also keeps the grant times at least `REQUEST_DELAY` apart.

Each class has a second copy in app.py (hunter.py, auth.py, whatsapp.py and
config.py). The model describes each class once and cites the standalone
file. The copies differ in three ways:
- app.py drops the return-type annotations, which changes no behaviour;
- app.py's `WhatsAppManager` has no `get_templates`;
- app.py's `create_token` builds the expiry differently, and always
  raises (see "Findings").

## Model

| member | source | states |
|---|---|---|
| Text.Strip | config.py:8-12 | `strip()`: the result is the input with a blank run cut off each end; no whitespace is left at either end; it is empty exactly when the input is all whitespace |
| Text.Split | config.py:12 | `split(sep)` yields at least one part, and no part contains the separator |
| Text.SplitJoin | config.py:12 | splitting on the separator recovers parts joined by it, if no part contains the separator |
| Text.JoinSplit | config.py:12 | joining the parts of a split restores the original string |
| Text.Contains | hunter.py:33 | `w in t`: the empty word is in every text, and a word in a text is no longer than it |
| Text.ContainsIffOccurs | hunter.py:33 | `w in t` holds exactly when `w` occurs in `t` at some index |
| Text.LowerFolds | hunter.py:30 | `lower()` leaves no ASCII capital, so lowering twice changes nothing more; a text is its own lower case iff it has no ASCII capital; only capitals change |
| Config.KeepStripped | config.py:12 | `[k.strip() for k in parts if k.strip()]`: at most one key per part, each non-empty and without surrounding whitespace |
| Config.KeepStrippedSingle | config.py:12 | one part yields its stripped form, or nothing when it is blank |
| Config.KeepStrippedAppend | config.py:12 | the keys of two runs of parts are the keys of each, in order, so every non-blank part yields its stripped form in its own place |
| Config.ParseKeys | config.py:11-12 | every parsed search key is non-empty, has no surrounding whitespace and contains no comma |
| Config.PaddedKeysKept | config.py:11-12 | `" k1 , ,k2 "` for any two well-formed keys parses to `[k1, k2]`: the padding is stripped, the blank entry dropped, the order kept |
| Config.StripPadded | config.py:11-12 | `strip()` removes exactly the whitespace around a non-empty trimmed core |
| Config.ParseKeysJoin | config.py:11-12 | parsing a comma-joined list of well-formed keys returns the same keys in the same order |
| Config.ParseKeysOfSeparatorsOnly | config.py:11-12 | a variable holding only whitespace and commas, the empty one included, configures no key |
| Config.RolesNest | config.py:17-23 | viewer ⊆ agent ⊆ manager ⊆ admin; only the owner holds the wildcard `*` |
| Config.Validate | config.py:26-43 | each of the five messages is reported exactly when its condition holds, as an error or as a warning; valid iff there is no error; both lists keep check order |
| Config.ErrorsThenWarnings | config.py:55 | errors followed by warnings stay in check order, and no warning comes before an error |
| Config.GetStatus | config.py:46-56 | database configured iff URL and key are both set; search configured iff at least one key; the issues are exactly the raised messages, errors first; valid iff no issue is an error |
| Auth.RolePermissions | auth.py:60 | `ROLES.get(role, [])`: a role's list is empty iff the role is not configured; a configured role gets its own list |
| Auth.CheckPermission | auth.py:59-63 | the owner holds every permission; an unknown role holds none; any other role holds exactly the permissions listed for it |
| Auth.PermissionMonotone | auth.py:59-63 | along viewer < agent < manager < admin < owner, a permission granted to a role is granted to every role above it |
| Auth.IsActiveCases | auth.py:23 | `user.get("is_active", True)` is truthy iff the column is absent or true; a null column, like a false one, makes the row inactive |
| Auth.Authenticate | auth.py:13-40 | success iff the query returns rows, the first row is active (a missing `is_active` counts as active) and a token is issued; the session carries that row's fields and its role's permissions; no row or an inactive first row gives bad credentials; a raising query gives a server error |
| Auth.AuthenticateSignsInActiveUser | auth.py:13-48 | with auth.py's `create_token` (`CreateToken`), exactly an active first row signs in, and its token carries the user id and role |
| Auth.AppAuthenticateNeverSucceeds | app.py:156-191 | with app.py's `create_token` (`CreateTokenAsWrittenInApp`), no query result signs in; an active first row gets the server-error answer |
| Auth.AppRejectsActiveAdmin | app.py:185-191 | a concrete active admin row: app.py answers with a server error, while auth.py signs it in with the five admin permissions |
| WhatsApp.NormalizePhone | whatsapp.py:17-18 | the normalised number always starts with `+` |
| WhatsApp.NormalizePhoneSpec | app.py:336-337 | normalising twice changes nothing; a `+` number is kept; a leading `0` becomes `+20`, the same as prefixing `+2`; anything else gets `+20` in front; the length grows by 2 or 3 |
| WhatsApp.NormalizeLocalMobile | whatsapp.py:17-18 | an 11-character `01…` number becomes the 13-character `+201…` |
| WhatsApp.DeliveryFor | whatsapp.py:22-26 | the form is from `whatsapp:` + the configured number, to `whatsapp:` + the normalised number for every input (so it starts `whatsapp:+`, and for an `01…` mobile number is `whatsapp:+2` + it), with the message as body |
| WhatsApp.SendMessage | whatsapp.py:13-42 | a disabled manager fails without a request; success iff enabled and Twilio replies 201, and then the result carries Twilio's `sid` and the normalised number |
| WhatsApp.DisabledSendsNothing | whatsapp.py:11-15 | when `Enabled` fails (a setting is missing or empty), the answer does not depend on Twilio at all |
| WhatsApp.SendFailureCases | whatsapp.py:31-42 | every status other than 201 and every exception is a failure that carries it |
| Classifier.Hits | hunter.py:33-36 | a score is at most the number of keywords |
| Classifier.HitsCountsKeywordsPresent | hunter.py:32-36 | with distinct keywords, the score is the number of distinct keywords in the text, each counted once however often it occurs |
| Classifier.Verdict | hunter.py:40-41 | good iff the score is positive, bad iff negative, neutral iff zero |
| Classifier.FindPhones | hunter.py:38 | `re.findall` from a start index: every match is 11 characters long, and matches do not overlap, so there are at most (remaining length) / 11 of them |
| Classifier.FindPhonesNonEmptyIff | hunter.py:38 | the scan finds something iff the pattern matches at some position |
| Classifier.FindPhonesSound | hunter.py:38 | every string the scan reports matches the pattern and occurs in the text at or after the start |
| Classifier.FindPhonesComplete | hunter.py:38 | every match that no earlier match overlaps is reported; only a match starting inside an earlier one is skipped |
| Classifier.ShortTextHasNoPhone | hunter.py:38 | a text shorter than 11 characters yields no phone |
| Classifier.PhoneEdgeCases | hunter.py:38 | `0111111111` (10 digits) yields nothing, `013…` is not a mobile number, and `01511111111` is found |
| Classifier.ElementsOfMembers | hunter.py:48 | `set(xs)` has exactly the elements of `xs` |
| Classifier.AnalyzeContent | hunter.py:29-50 | the scores are bounded by the keyword lists; total = buyer − seller; has a phone iff its phone set is non-empty |
| Classifier.AnalyzeContentSpec | hunter.py:29-50 | each score is the number of distinct keywords in the lower-cased text; the verdict follows the sign of buyer − seller; has a phone iff the pattern matches somewhere |
| Classifier.AnalyzedPhonesOccur | hunter.py:38-48 | every reported phone is an 11-character match of the pattern taken from the text itself |
| Classifier.AnalyzedPhonesAreScan | hunter.py:38-48 | the phone set holds exactly the numbers the scan reports |
| Classifier.AnalyzedPhonesComplete | hunter.py:38-48 | every match of the pattern that no earlier match overlaps is in the phone set |
| Classifier.DuplicatePhoneCollapses | hunter.py:38-48 | a number written twice is a single entry of the phone set |
| Classifier.TenDigitNumberIgnored | hunter.py:38-48 | beside `01512345678`, the ten-digit `0111111111` adds nothing: the phone set is that one number |
| Classifier.AnalysisOfCounts | hunter.py:29-50 | known scores plus exactly one match fix the whole analysis |
| Classifier.NeutralLeadExample | hunter.py:29-50 | "مطلوب شقة للبيع فرصة 010…" scores 1–1, is neutral, and has its one phone |
| Classifier.GoodLeadExample | hunter.py:29-50 | "مطلوب شقة بسعر مناسب 010…" scores buyer 1, seller 0, is good, and has its one phone |
| LeadHunter.WindowIsRotation | hunter.py:16-21 | any K consecutive draws hand out each of the K keys once, in configured order, starting from the cursor |
| LeadHunter.FirstRoundInOrder | hunter.py:16-21 | from a fresh cursor, the first K draws are the keys in order, and draw K+1 repeats the first key |
| LeadHunter.DrawsRepeat | hunter.py:16-21 | every draw repeats the one K draws before it |
| LeadHunter.RoundRobinStep | hunter.py:19-20 | handing out the key under the cursor keeps the rotation, and the cursor advances by one mod K |
| LeadHunter.SpacedSpan | hunter.py:23-27 | n requests after a given one are at least n × REQUEST_DELAY later |
| LeadHunter.Hunter.constructor | hunter.py:11-14 | the cursor and request count start at 0, and the last-request time is the clock's current time |
| LeadHunter.Hunter.GetNextKey | hunter.py:16-21 | no keys: `None`, and nothing moves; otherwise it returns the key under the cursor, advances the cursor by one mod K, and the draw history keeps its round-robin shape |
| LeadHunter.Clock.Read | hunter.py:24-27 | `time.time()`: the reading is the clock's time, which never goes back; no sleep is recorded |
| LeadHunter.Clock.Sleep | hunter.py:26 | `time.sleep(d)`: at least `d` ticks pass, and the sleep of length `d` is appended to the clock's trace of sleeps |
| LeadHunter.Hunter.SafeDelay | hunter.py:23-27 | `elapsed` is the first clock reading `t0` minus the previous stamp; the clock's sleep trace gains exactly one sleep of `REQUEST_DELAY − elapsed` when less than the delay has passed and none otherwise; then the time is stamped, at least REQUEST_DELAY after the previous stamp |
| LeadHunter.ContentLayout | hunter.py:87 | the classified content is the title (empty when missing), one space, then the snippet (empty when missing) |
| LeadHunter.LeadLayout | hunter.py:92-99 | the row `MakeLead` builds has its phone, no name, its creator, source `hunter:` + query, and notes made of the source prefix, the link, a newline, at most the first 200 characters of the content and a closing `...`; short content appears in full |
| LeadHunter.LeadStore.Insert | hunter.py:101-105 | the attempt is logged; the row is stored iff the insert did not raise |
| LeadHunter.AcceptedPhonesOfAccepted | hunter.py:101-103 | `found_leads` lists the phones of the stored rows, one per row, in order |
| LeadHunter.AcceptedWereAttempted | hunter.py:101-105 | every stored row was an attempted insert |
| LeadHunter.TakeUpTo | hunter.py:91 | picks min(2, number of phones) distinct phones of the analysed set |
| LeadHunter.InsertEach | hunter.py:91-105 | one insert attempt per picked phone, in order; `found` holds exactly the phones whose insert succeeded |
| LeadHunter.StoreItemLeads | hunter.py:86-105 | an item that is not good or has no phone yields no attempt; a good item with phones yields attempts for min(2, its phones) distinct phones of its own |
| LeadHunter.AnalysesAt | hunter.py:86-88 | the k-th analysis is that of the k-th item's title + " " + snippet |
| LeadHunter.CollectLeads | hunter.py:84-105 | the attempts are, item by item, those each item's analysis calls for; `found` is exactly the list of accepted phones; the store's log grows by the attempts |
| LeadHunter.AtMostTwoPerItem | hunter.py:86-105 | a hunt over n results makes at most 2n insert attempts |
| LeadHunter.AttemptsComeFromGoodItems | hunter.py:86-105 | every attempted lead comes from a good result with a phone: its phone is one of that result's numbers, and its row is built from that result |
| LeadHunter.FivePhonesTwoAttempts | hunter.py:90-91 | a good result carrying five distinct numbers still yields exactly two attempts |
| LeadHunter.BuildRequest | hunter.py:62-71 | the query is `"query" "city"`, each part in double quotes; the request asks for min(MAX_RESULTS, 50) results, Egypt, Arabic, past week, with the chosen key |
| LeadHunter.Hunter.Search | hunter.py:52-119 | no keys, an empty key and every failing outcome give their own failure with no insert; a decoded 200 reply gives total = items, found = successful inserts, leads = the first min(10, found); success iff that case (in full below) |
| Routes.Login | app.py:413-424 | 400 iff the username or password is missing or empty; 401 iff both are given and authentication fails; signed in iff both are given and authentication succeeds, with the session and token `authenticate` returned |
| Routes.LoginChecksFieldsFirst | app.py:414-419 | a missing field is refused with 400 whatever the users table and token function would do |
| Routes.LoginSignsInActiveUser | app.py:413-424 | with auth.py's token function, login succeeds iff the first matching row is active, and it grants that role's permissions |
| Routes.LoginAsWrittenInAppNeverSucceeds | app.py:413-424 | with app.py's own token function, every login is refused |
| Routes.CreateHolders | config.py:17-23 | the `create` permission is held by exactly agent, manager, admin and owner |
| Routes.StartHunt | app.py:426-443 | 403 iff the role lacks `create`; 400 iff it has it but the query or city is missing or empty; otherwise exactly one search for (query, city, user) is queued, with its message; a refusal queues nothing |
| Routes.ViewerCannotHunt | app.py:427-429 | a viewer is refused with 403 and queues nothing |
| Routes.HuntQueuesOneSearch | app.py:431-443 | a permitted role with a query and a city queues exactly one search, for itself |
| Routes.SendWhatsApp | app.py:445-459 | 403 iff the role lacks `create`; delivered iff permitted, both fields given and the send succeeds; every other refusal is 400 |
| Routes.SendWhileDisabledRefused | app.py:453-458 | with Twilio unconfigured, a permitted, complete request is answered with 400 |
| Routes.CountStatus | app.py:484 | a status count is at most the number of rows |
| Routes.CountStatusExtremes | app.py:484 | the count is 0 iff no row has the status, and it is the total iff every row has it |
| Routes.DistinctStatusesBounded | app.py:484-491 | counts of two different statuses add up to at most the number of rows |
| Routes.GetStats | app.py:473-495 | the total, new and converted counts over the user's leads; a raising query gives 500 with its message |
| Routes.StatsBounded | app.py:482-491 | new ≤ total, converted ≤ total and new + converted ≤ total |

`LeadHunter.Hunter.Search` states all of the following:
- With no keys it fails with "no keys" before any draw or delay.
- Otherwise it draws the key under the cursor. An empty key fails before
  the delay.
- Otherwise exactly one request is paced, at least REQUEST_DELAY after the
  previous one. It sleeps at most once, for a positive time no longer than the
  wait still owed at the call. If REQUEST_DELAY had already passed at the
  call, it does not sleep.
- A timeout, an exception, status 429, any other non-200 status and an
  undecodable body each give their own failure with no insert attempt, and
  the key has still advanced.
- A decoded 200 reply gives success with:
  - total_results = the number of `organic` items (`ItemsOf`: 0 when absent);
  - the attempts described by `HuntAttempts`;
  - found_leads = the number of successful inserts;
  - leads = the first min(10, found) of them.
- Success holds exactly in that last case.

## Left out

- Network, database and JWT calls are parameters or outcome values. Signing,
  expiry and `verify_token` belong to the JWT library and are not modelled.
  Nor is `get_current_user`: a route receives the user's id and role.
- Wall-clock time is a `Clock` of integer ticks, so `REQUEST_DELAY` is a
  natural number of ticks rather than a float of seconds. `created_at`,
  `job_id` and the `timestamp` of `/health` are not modelled.
- Concurrency (the background task runs later and may overlap other
  requests) and the module-level singletons are not modelled. A search runs
  on one `Hunter` object.
- `print` and logging (logger.py) are left out. So are the demo entry points
  main.py and main_crm.py, the `/`, `/health` and `/leads` routes, and the
  Supabase client in database.py.
- Classifier.AnalyzeContent: `phones` is a set. The order of `list(set(phones))`
  depends on Python's hashing and is not specified.
- LeadHunter.TakeUpTo: picks any min(2, n) distinct phones of the set, because
  which two come first in `list(set(phones))[:2]` is not specified.
- Text.Lower: folds ASCII capitals only, while Python's `lower()` also folds
  capitals of other scripts in the snippets. That changes no keyword score:
  every keyword is Arabic or lower-case ASCII, and no non-ASCII capital
  lowers to a run that completes one. For example, `K` (U+212A, Kelvin sign)
  lowers to a `k`, which is in no keyword, and `İ` lowers to `i` followed by
  U+0307, which does not continue "buying".
- Text.Strip: removes the ten ASCII characters for which Python's
  `isspace()` holds (tab, line feed, vertical tab, form feed, carriage
  return, U+001C to U+001F, and space). It does not remove the non-ASCII
  spaces Python's `strip()` also removes, such as U+0085 and U+00A0.
- LeadHunter.Hunter: `request_count` is kept but never updated, as in the
  source.
- LeadHunter.Item: an `organic` entry is reduced to its title, snippet and
  link, and a missing field is `None`. Values of other JSON types are not
  modelled, and neither is an `organic` field that is present but `null`.
- WhatsApp.SendMessage: a 201 reply whose body does not decode is not
  modelled. Twilio's outcome carries the `sid` directly.
- `authenticate` looks only at the first returned row. The model follows
  the code, where a description of "a matching user" might suggest any row
  would do.
- `get_templates` in whatsapp.py is a constant table and is not modelled.
- Routes.Login: a refusal carries only its status code. The `detail` text of
  the `HTTPException` is dropped: the fixed messages of app.py:419 and the
  error text of app.py:423. Routes.SendWhatsApp drops the texts of
  app.py:448, 454 and 458 the same way.
- The `Hunter` takes its keys as given. With keys from `Config.ParseKeys`
  (no key is empty), the empty-key failure of `search` cannot arise.

## Findings

| source | as written | input that shows it | evidently intended | confidence | as-written member | corrected member |
|---|---|---|---|---|---|---|
| app.py:189 | `create_token` builds the expiry with `time.timedelta`, which the `time` module lacks, so every call raises; `authenticate` catches it and answers with a server error | an active user row `("u1", "sara", "admin", is_active=True)` with correct credentials | `timedelta` from the `datetime` module, as auth.py:2 and auth.py:46 use it: the active first row signs in with a token | high (not executed) | Auth.AppRejectsActiveAdmin | Auth.AuthenticateSignsInActiveUser |
