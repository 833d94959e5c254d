# Gemma moderator bot: a Dafny model of the message handler

The bot watches group chats on a messaging platform. For every message it
collects the text or caption, the message photo, the sender's name and id, and
the sender's profile photo. It sends these to a generative model that answers
with a JSON object naming a category. For NUDITY, VIOLENCE, CASINO_ADS and SPAM
it deletes the message and bans the sender.

This project models the two functions of `bot.py` that do that work:

- `classify_content` builds the content list, calls the model, cleans the reply
  and decodes it. Any failure gives the category ERROR.
- `handle_message` gates updates, fetches the photos, writes the analysis text,
  normalises the category and runs the delete-then-ban action.

The outside world is a value of type `Handler.Env`: one function per remote
operation (profile photos, `get_file`, download, model call, delete, ban). Each
function says what that operation returns or whether it fails. `json.loads` is
the parameter `decode`. A run of the handler is a `Handler.Run`: the sequence
of external calls in the order they are made, and whether the handler returned
or raised. `Handler.Handle` defines the run as a function of the update, the
world and the decoder. `Handler.HandleMessage` is the step-by-step version, and
its contract says it produces exactly that run. The lemmas in `handler.dfy`
state what the handler promises in terms of `Handle`.

Files:

- `strings.dfy` (modules `Wrappers`, `Strings`) models Python's `str.strip()`,
  `str.replace(p, "")` and `str.upper()`, and decimal integer rendering in an
  f-string.
- `classifier.dfy` (module `Classifier`) models `classify_content`.
- `handler.dfy` (module `Handler`) models `handle_message`.

## Behaviour as written

On these points the code's behaviour is not the obvious one for a moderation
bot. The model follows the code.

- Delete and ban share one `try` block (bot.py:138-143). A delete that fails
  skips the ban, so a ban is never attempted after a failed delete
  (`Handler.BanRule`).
- The message photo fetch is not guarded (bot.py:122-126). A failure escapes
  the handler, and the model is not called (`Handler.MessagePhotoFailureRaises`).
- `classification.get(...)` and `.upper()` run outside the classifier's `try`
  (bot.py:135). A reply that decodes to something other than an object, or to a
  non-string category, raises instead of becoming ERROR
  (`Handler.UnreadableReplyRaises`).
- The profile photo is fetched before the check that there is anything to
  classify (bot.py:110-131). A message with no text and no photo still costs
  the whole profile-photo fetch: the request for the photo list and, when the
  sender has a profile photo, its `get_file` and download
  (`Handler.NothingToClassify`).
- No notice is posted after a ban.
- Edited messages are never moderated. An edit arrives with `update.message`
  empty (the edit is carried separately), so the gate at bot.py:101-103 returns
  at once. A sender who first posts a harmless message and then edits it into a
  harmful one is not caught. In the model an edit is `Update(None)`, and
  `Handler.GateRule` gives it an empty run.

## Model

| member | source | states |
|---|---|---|
| Strings.Strip | bot.py:92 | Defines Python's `strip()` (both calls at bot.py:92) over Python's whitespace set; its meaning is stated by `StripBounds`, `StripUnchanged` and `StripIdempotent`. |
| Strings.TrimStartSuffix | bot.py:92 | Trimming the start keeps a suffix of the input. Everything cut off is whitespace, and the result does not start with whitespace. |
| Strings.TrimEndPrefix | bot.py:92 | Trimming the end keeps a prefix of the input. Everything cut off is whitespace, and the result does not end with whitespace. |
| Strings.StripBounds | bot.py:92 | `strip()` returns the slice `s[i..j]`, where `s[..i]` and `s[j..]` are all whitespace and the slice has none at either end. |
| Strings.StripUnchanged | bot.py:92 | A string with no whitespace at either end is left unchanged by `strip()`. |
| Strings.StripIdempotent | bot.py:92 | Stripping twice is stripping once. |
| Strings.RemoveAll | bot.py:92 | `replace(p, "")` never makes a string longer. |
| Strings.RemoveAbsent | bot.py:92 | Removing a pattern that does not occur changes nothing. |
| Strings.RemoveAfterFreePrefix | bot.py:92 | A prefix without the pattern's first character passes through the removal unchanged. |
| Strings.NoFenceAfterRemoval | bot.py:92 | After every ``` is removed, no ``` is left, even where two backtick runs become adjacent. |
| Strings.Upper | bot.py:135 | Defines Python's `upper()` applied to the category; its meaning is stated by `UpperAppend`, `UpperIdempotent`, `UpperAscii` and `UpperMatchesIgnoringCase`. |
| Strings.UpperAppend | bot.py:135 | Upper-casing a concatenation upper-cases each part. |
| Strings.UpperIdempotent | bot.py:135 | Upper-casing twice is upper-casing once, ligatures and sharp s included. |
| Strings.UpperAscii | bot.py:135 | On ASCII text, `upper()` keeps the length and maps each character in place. |
| Strings.UpperMatchesIgnoringCase | bot.py:135 | ASCII text upper-cases to an upper-case word exactly when it spells that word in some mixture of cases. |
| Strings.IntToString | bot.py:129 | Defines how the user id is rendered inside the f-string; `IntToStringRoundTrip` and `IntToStringNoNewline` state what it yields. |
| Strings.NatToString | bot.py:129 | A rendered natural number is a non-empty run of digits with no leading zero. |
| Strings.IntToStringRoundTrip | bot.py:129 | The rendering of any integer, negative ones included, reads back as that integer. |
| Strings.IntToStringNoNewline | bot.py:129 | A rendered user id never contains a line break. |
| Classifier.RequestParts | bot.py:80-85 | Defines the content list; `RequestPartsShape` states its exact shape and `ClassifyContent` proves the step-by-step build equal to it. |
| Classifier.RequestPartsShape | bot.py:80-85 | The content list is the instructions, then the text if non-empty, then the photo if present, then the separator and the profile photo if present. Its length matches, and it holds nothing else. |
| Classifier.CleanReply | bot.py:92 | Defines the reply cleaning (strip, drop every ```json, drop every ```, strip); `CleanReplyHasNoFence`, `CleanReplyIdempotent`, `CleanReplyUnchanged` and `CleanFencedReply` state what it does. |
| Classifier.CleanReplyHasNoFence | bot.py:92 | A cleaned reply contains no ``` and no ```json, and has no whitespace at either end. |
| Classifier.CleanReplyIdempotent | bot.py:92 | Cleaning an already cleaned reply changes nothing. |
| Classifier.CleanReplyUnchanged | bot.py:92 | A reply with no backtick and no surrounding whitespace reaches the parser unchanged. |
| Classifier.CleanFencedReply | bot.py:92 | For a body without backticks, a reply wrapped as ```json … ``` reaches the parser as the stripped body. |
| Classifier.FencedReplyReadAsBody | bot.py:92-94 | For a body without backticks, a reply wrapped as ```json … ``` is classified exactly as the stripped body sent bare. |
| Classifier.Interpret | bot.py:87-97 | Defines what the classifier returns for a model reply: the decoded cleaned text, or the ERROR object on any failure; `InterpretIsDecodedOrError` and `FencedReplyReadAsBody` state its properties. |
| Classifier.InterpretIsDecodedOrError | bot.py:87-97 | The result is the ERROR object exactly when the call failed, the response had no text, the cleaned text did not parse, or the model itself answered with that object. Any other result is the parsed cleaned reply. |
| Classifier.ClassifyContent | bot.py:77-97 | Builds the content list entry by entry, sends exactly that list, and returns the interpreted reply. |
| Handler.Qualifies | bot.py:101-103 | Defines the gate: a message, from a group or supergroup, with a sender; `GateRule` states that the handler makes no call exactly when it fails. |
| Handler.FetchProfilePhoto | bot.py:110-119 | Defines the guarded profile-photo fetch; `ProfileBytesNeedFullSuccess` and `ProfileFailureIsAbsence` state its best-effort behaviour and `FetchProfilePhotoBytes` proves the step-by-step block equal to it. |
| Handler.FetchMessagePhoto | bot.py:121-126 | Defines the unguarded message-photo fetch; `MessagePhotoFailureRaises` states its failure behaviour and `FetchMessagePhotoBytes` proves the step-by-step block equal to it. |
| Handler.DownloadLargest | bot.py:123-126 | Fetching a photo asks for its last (largest) resolution first, makes one or two calls, and succeeds exactly when both `get_file` and the download succeed. |
| Handler.FetchProfilePhotoBytes | bot.py:110-119 | The guarded profile fetch makes the calls and keeps the bytes that `FetchProfilePhoto` describes. Every failure leaves the bytes empty. |
| Handler.ProfileBytesNeedFullSuccess | bot.py:111-117 | Profile bytes are non-empty only when the photo list, the first photo, `get_file` and the download all succeeded, and they are the downloaded bytes. |
| Handler.FetchMessagePhotoBytes | bot.py:121-126 | The unguarded message-photo fetch makes the calls and gives the bytes or the failure that `FetchMessagePhoto` describes. |
| Handler.Content | bot.py:128 | Defines `message.text or message.caption`, an absent value read as empty; `NothingToClassify` and `SpamScenario` use it for the no-content and text cases. |
| Handler.AnalysisText | bot.py:129 | Defines the analysis text; `AnalysisTextRoundTrip` and `AnalysisTextInjective` state that it loses nothing, and `RequestStartsWithAnalysis` that it is never empty. |
| Handler.AnalysisTextRoundTrip | bot.py:128-129 | For a name without a line break, the name, the id and the message (or `[No Text]`) can be read back from the analysis text. |
| Handler.AnalysisTextInjective | bot.py:129 | Different senders or messages give different analysis texts, for names without a line break. |
| Handler.NormalisedCategory | bot.py:135 | Defines `classification.get("category", "ERROR").upper()`, including the exceptions it raises; `ErrorsReadAsError`, `ReadStringCategory` and `UnreadableReplyRaises` state its cases. |
| Handler.ErrorsReadAsError | bot.py:135 | A classifier failure, or an object without a category, is read as the category ERROR, which is not flagged. |
| Handler.ReadStringCategory | bot.py:135 | A string category is read upper-cased. |
| Handler.FlaggedIgnoringCase | bot.py:135-137 | An ASCII category is flagged exactly when it spells NUDITY, VIOLENCE, CASINO_ADS or SPAM in some mixture of cases. |
| Handler.LongSSpamIsFlagged | bot.py:135-137 | "ſpam" (written with a long s) upper-cases to SPAM and is flagged. |
| Handler.Moderate | bot.py:137-143 | Defines the calls the action block makes; `ModerateRule` and `BanRule` state its rule and `Act` proves the step-by-step block equal to it. |
| Handler.ModerateRule | bot.py:137-143 | Delete is attempted exactly for flagged categories. Ban is attempted exactly when that delete succeeded, and only after it. There are at most two calls: the delete, then the ban. |
| Handler.Act | bot.py:137-143 | The action block makes exactly the calls `Moderate` describes. |
| Handler.GateRule | bot.py:101-103 | The handler makes no call at all exactly when there is no message, the chat is not a group or supergroup, or there is no sender. Otherwise its first call asks for one profile photo. |
| Handler.NothingToClassify | bot.py:131 | With no text, no caption and no photo, the run is the profile fetch alone. It returns normally, without a model call or any moderation. |
| Handler.RequestStartsWithAnalysis | bot.py:81 | The content list opens with the instructions and then the analysis text, which is never empty. |
| Handler.ClassifyCallRule | bot.py:131-134 | The model is called exactly when the update qualifies, the message photo (if any) was obtained, and there is text or photo bytes. The call comes right after the fetches. |
| Handler.MessagePhotoFailureRaises | bot.py:122-126 | The handler raises because of the message photo exactly when there is one and fetching it failed. It then makes no model or moderation call. |
| Handler.ProfileFailureIsAbsence | bot.py:111-119 | When the profile-photo request fails, the run is exactly the run for a sender without a profile photo. |
| Handler.ClassifierFailureIsFailOpen | bot.py:134-137 | If the model call fails, returns no text, returns unparsable text or returns an object without a category, the handler returns right after the model call and never deletes or bans. |
| Handler.UnreadableReplyRaises | bot.py:135 | A reply that is not an object, or has a non-string category, raises right after the model call, before any action. |
| Handler.ActionRule | bot.py:135-143 | Once a category is read, the run is the fetches, the model call and the calls `Moderate` gives for that category. The lemma spells out each of the three cases. |
| Handler.BanRule | bot.py:137-143 | A ban is attempted exactly when the update qualifies, the model was called, the category is flagged and the delete succeeded. The ban is then the last call, right after the delete. |
| Handler.BanFailureIgnored | bot.py:140-143 | The run does not depend on what the ban call returns. |
| Handler.FlaggedAndDeleted | bot.py:137-140 | For a flagged category whose delete succeeds, the run ends with the model call, the delete and the ban, and returns normally. |
| Handler.SpamScenario | bot.py:99-143 | A text message with no photo, whose sender's profile photos cannot be fetched, classified "spam": the run is exactly profile request, model call with the analysis text, delete, ban. |
| Handler.Handle | bot.py:99-143 | Defines the whole run of the handler; the lemmas from `GateRule` to `SpamScenario` state its properties and `HandleMessage` proves the step-by-step handler equal to it. |
| Handler.HandleMessage | bot.py:99-143 | The step-by-step handler produces exactly the run `Handle` defines. |

## Left out

- The webhook endpoint, the secret-token check and the health route (bot.py:145-172) are left out. They are transport around the handler.
- Handler registration and its message filters (bot.py:147-150) are left out. The model handles every update it is given.
- Environment configuration and the start-up check (bot.py:13-19) are left out, as are logging (bot.py:21-25 and every `logger` call). Logs are not observable in the model's trace.
- The wording of the moderation prompt (bot.py:28-52) is left out. It is the single opaque entry `Instructions`.
- The model client, its name and its safety settings (bot.py:54-74, 87-91) are left out. The call is the `generateContent` field of `Env`.
- `json.loads` is not modelled. It is the `decode` parameter, reduced to what the handler reads: parse error, non-object, or object with a missing, string or other category.
- The `reason` field of the reply and the exception text in the ERROR object (bot.py:97) are left out, because nothing downstream reads them.
- Awaiting and concurrency are left out. Each call is one step of the trace, and one update is handled at a time.
- Building the content list (bot.py:80-85) is assumed never to fail. `Part.from_data` is a foreign call that could raise inside the classifier's `try`; the source would then give ERROR without calling the model, while the model always records the model call once the handler reaches the classifier (`Handler.ClassifyCallRule`).
- Whether the client library accepts the names used at bot.py:82-91 (`Part.from_data`, the `generation_config=` keyword) depends on its version and is not part of this model. If it rejects them, every classification ends in the `except` at bot.py:95-97 as ERROR and nothing is deleted or banned; a rejected keyword corresponds to a model call that fails (`CallFailed`).
- `BytesIO` buffering is left out. A download is modelled as returning its bytes.
- The outside world answers as a function of the call's arguments, so two calls with the same arguments get the same answer. The handler can repeat a call: when the message photo and the sender's profile photo share their largest file id, `get_file` is asked twice for it, and likewise a download for equal file handles. A run where those two answers differ (one succeeds, the other fails transiently) is not represented.
- Strings.UpperChar: maps ASCII letters, plus the non-ASCII characters whose Python upper-case form is pure ASCII (ı, ſ, ß, U+FB00 to U+FB06). It leaves every other character unchanged. So the category string can differ from Python's for other non-ASCII letters. Neither form can then equal a flagged name, so which calls are made is unaffected.
- Handler.SpamScenario: states the scenario for the reply category "spam". It does not quantify over all spellings; Handler.FlaggedIgnoringCase covers that.
