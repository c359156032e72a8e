# Thunderbird to Joplin export, modelled in Dafny

This project models the export pipeline of the Thunderbird add-on that turns emails into
Joplin notes (`src/background.ts`). It covers:

- **Template rendering.** `renderString` fills `{{...}}` placeholders, matched by the
  lazy global regular expression `/{{.*?}}/g`, from a context of header properties.
- **Mail content.** `getMailContent` walks the MIME tree of the message in pre-order and
  gathers the bodies of one content type.
- **Body choice.** The selected text is used when it holds more than whitespace.
  Otherwise the preferred format decides between the HTML and the plain body.
- **`processMail`.** It exports one email as a sequence of requests to Joplin's REST
  interface:
  - it creates the note;
  - it puts an optional rendered header in front of the body;
  - it searches, creates and attaches every tag;
  - it uploads every attachment and appends a summary of links to the body.

  Only failures before the tags are errors; failures in the tag and attachment loops are
  warnings.
- **`getAndProcessMessages`.** It exports every displayed email, folds the results into
  one success flag and a notification, and shows the notification according to the
  notification setting.

The Joplin service is a function from the history of requests (the current one last) to
a reply, so any server behaviour, failures included, can be plugged in. The class
`Remote.RemoteApi` is the connection: it records every request it sends, in order.

Every imperative part of the source is a method proved against a specification
function:

| method | specification function |
|---|---|
| `RenderString` | `Render` |
| `GetMailContent` | `ContentOf` |
| `ChooseBodies` | `SelectBody` |
| `TagNote` | `TagLoop` |
| `AttachFiles` | `AttachStage` |
| `ProcessMail` | `Export` |
| `Summarize` | `SummaryOf` |
| `GetAndProcessMessages` | `Session` |

The lemmas state the properties of those functions.

Modules:

| module | contents |
|---|---|
| `Wrappers` | `Option` and `Result` |
| `TextUtil` | JavaScript `trim`, `split`, the decimal text of a count, and `replace` with a string pattern |
| `Template` | the regular-expression matcher, the renderer as written and the corrected renderer |
| `TemplateExamples` | the renderer's test table and the two inputs on which the renderers disagree |
| `MailContent` | the MIME tree, the content it yields, and the body decision table |
| `Remote` | requests, replies and the connection |
| `MailExport` | settings, the email's data, the export as a function, and the `processMail` methods |
| `ExportProperties` | what one export sends, when it stops with an error, and the request counts |
| `Notify` | the run over all emails, the success fold and the notification gate |

## Model

| member | source | states |
|---|---|---|
| `TextUtil.Trim` | src/background.ts:55-57 | The trimmed text is no longer than the input and has no JavaScript whitespace at either end. It is empty exactly when the input is all whitespace. |
| `TextUtil.TrimIsInfix` | src/background.ts:55-57 | What `trim` keeps is a contiguous piece of the input with only whitespace before and after it. |
| `TextUtil.OnlyWhitespace` | src/background.ts:55-57 | `onlyWhitespace(s)` is true exactly when every character of `s` is whitespace. |
| `TextUtil.OnlyWhitespaceTable` | __tests__/test_background.ts:769-781 | The whitespace test table: `""`, blanks, and blanks with a tab and a line feed count as empty; `"foo"` and `"  bar  "` do not. |
| `TextUtil.TrimIdempotent` | src/background.ts:307-309 | Trimming a trimmed tag changes nothing. |
| `TextUtil.Split` | src/background.ts:292-293 | `split(",")` gives at least one piece. No piece holds a comma. Joining the pieces with commas gives the stored string back. |
| `TextUtil.SplitJoin` | src/background.ts:292-293 | Splitting a comma-joined list of comma-free pieces gives the same pieces back, empty ones included. |
| `TextUtil.DecimalString` | src/background.ts:124-127 | The count in the message is a non-empty string of decimal digits without a leading zero. |
| `TextUtil.DecimalRoundTrip` | src/background.ts:124-127 | Reading the count's digits back gives the count. |
| `TextUtil.IndexOfFrom` | src/background.ts:81 | The position found is the first occurrence of the pattern at or after the start; "none" means the pattern occurs nowhere after it. |
| `TextUtil.ReplaceFirst` | src/background.ts:81 | `replace` with a string pattern replaces exactly the first occurrence. Without an occurrence the string is unchanged. |
| `Template.CloseFrom` | src/background.ts:67 | The lazy `.*?}}` stops at the first `}}` on the same line, and fails only when a line terminator comes before every later `}}`. |
| `Template.ParseSound` | src/background.ts:67-68 | Splitting a template at its matches loses and invents no text, and every match has the placeholder shape. |
| `Template.Matches` | src/background.ts:67-68 | Every match has the placeholder shape (`{{`, no `}}` and no line break inside, `}}`). The template is a literal head followed by the matches, in order and without overlap, each followed by the literal text up to the next one. |
| `Template.MatchesComplete` | src/background.ts:67-68 | The matches are everything the global lazy search finds. No match starts in the literal head or in any literal text. Each match starts where the literal text before it ends, and ends where the lazy `.*?}}` stops (`FindsAll`). |
| `Template.MatchesIffPlaceholder` | src/background.ts:68-71 | There is no match exactly when no `{{` is closed by a `}}` later on the same line. |
| `Template.RenderString` | src/background.ts:59-84 | The loop computes `Render`: for each match in turn, a known trimmed key replaces the first occurrence of the match text. |
| `Template.RenderWithoutPlaceholders` | src/background.ts:69-71 | A template without a match is returned unchanged. |
| `Template.RenderUnknownKeys` | src/background.ts:76-80 | When no match's key is in the context, the template is returned unchanged. |
| `Template.RenderIntendedUnknownKeys` | src/background.ts:76-80 | The corrected renderer also keeps a template whose keys are all unknown. |
| `Template.RenderSingle` | src/background.ts:74-82 | A template that is one placeholder renders to its value when the key is known, and to itself otherwise. |
| `Template.RenderPair` | src/background.ts:74-82 | Two placeholders with ordinary text between them render in place, each to its value or to itself. |
| `Template.RenderAgrees` | src/background.ts:59-84 | On ordinary templates and values, the renderer as written equals in-place substitution. Ordinary means no stray `{{` in the literal text or the values, and placeholders that do not nest. |
| `Template.OneTurn` | src/background.ts:81 | One turn of the loop replaces the intended placeholder when no earlier copy of it exists. |
| `TemplateExamples.RenderEmptyTemplate` | __tests__/test_background.ts:785-786 | The empty template renders to the empty string. |
| `TemplateExamples.RenderEmptyKey` | __tests__/test_background.ts:787-788 | `{{}}` and `{{ }}` stay as they are when the empty key is unknown. |
| `TemplateExamples.RenderOnePlaceholder` | __tests__/test_background.ts:789-791 | `{{k}}` becomes the value of `k`, or stays when `k` is unknown; `{{ k }}` also becomes the value. |
| `TemplateExamples.RenderNestedBraces` | __tests__/test_background.ts:792 | `{{{{k}}}}` is left as it is: its only match has the key `{{k`, which is unknown. |
| `TemplateExamples.RenderTwoPlaceholders` | __tests__/test_background.ts:793-795 | Two placeholders separated by ordinary text, a line feed included, render in place, known or not. |
| `TemplateExamples.NestedAsWritten` | src/background.ts:74-82 | In `{{{{k}}}} {{k}}`, the renderer as written replaces the copy of `{{k}}` inside the first, unknown match, and leaves the real placeholder. |
| `TemplateExamples.NestedIntended` | src/background.ts:74-82 | The corrected renderer keeps the unknown match and fills the real placeholder. |
| `TemplateExamples.NestedDisagrees` | src/background.ts:74-82 | On that template the two renderers give different strings. |
| `TemplateExamples.RescannedAsWritten` | src/background.ts:74-82 | When the value of `{{a}}` contains `{{b}}`, the renderer as written fills the inserted copy and leaves the template's own `{{b}}`. |
| `TemplateExamples.RescannedIntended` | src/background.ts:74-82 | The corrected renderer inserts the value verbatim and fills the template's own `{{b}}`. |
| `TemplateExamples.RescannedDisagrees` | src/background.ts:74-82 | On such a context the two renderers give different strings. |
| `MailContent.GetMailContent` | src/background.ts:215-228 | The recursion appends exactly `ContentOf(mail, contentType)` to the accumulator: a node's own body before those of its parts, parts left to right. |
| `MailContent.ContentIsPreOrder` | src/background.ts:215-228 | The gathered content is the non-empty bodies of the requested type, taken in pre-order. |
| `MailContent.ContentEmpty` | src/background.ts:215-228 | The content is empty exactly when no node of the tree has a non-empty body of that type. |
| `MailContent.ChooseBody` | src/background.ts:236-251 | With both kinds empty, "Mail body is empty". Otherwise `body_html` is set iff (HTML preferred and present) or plain is empty, and `body` iff (plain preferred and present) or HTML is empty. Each carries its own kind's content. |
| `MailContent.SelectBody` | src/background.ts:230-255 | A selection that is not only whitespace becomes the plain body, and nothing else is set. Otherwise the choice is `ChooseBody` over the full email's HTML and plain content. The result fails, with "Mail body is empty", exactly when the selection is only whitespace and both contents are empty. |
| `MailContent.ChooseExactlyOne` | src/background.ts:242-251 | When the preference is HTML or plain and some body exists, exactly one field is set: the preferred kind if non-empty, else the other. |
| `MailContent.BodyFormatTable` | __tests__/test_background.ts:415-494 | The format test table: for every preference and every presence of the HTML and plain parts, the export fails with "Mail body is empty" or sets exactly the field the table names. |
| `Remote.RemoteApi.Send` | src/background.ts:259-263 | A request is appended to the log, and the reply is the service's answer to the log ending in it. |
| `MailExport.RenderingContext` | src/background.ts:182-187 | The context holds the header's properties, with the subject, author and date replaced by the shaped values. Its keys are exactly the header's keys plus `subject`, `author` and `date`. |
| `MailExport.Prepare` | src/background.ts:154-255 | Before any request: no header gives "Mail header is empty"; a missing or empty notebook gives "Invalid destination notebook: ….", or "…: undefined." when unset; an empty body gives "Mail body is empty". Otherwise the note has the title rendered by `renderString` as written (`Template.Render`), the notebook, `is_todo` as 0/1, the author, the date's time or 0, and the chosen bodies. |
| `MailExport.MailTags` | src/background.ts:296-303 | Every tag key of the email is mapped to the name of its first entry in the client's tag list, in order. |
| `MailExport.Titles` | src/background.ts:344-346 | The warning lists the titles of the matching tags, in order. |
| `MailExport.ChooseBodies` | src/background.ts:230-255 | The body-selection code computes `SelectBody`. |
| `MailExport.TagNote` | src/background.ts:306-366 | The tag loop with its `continue`s sends the requests and reports the warnings of `TagLoop`. |
| `MailExport.AttachFiles` | src/background.ts:378-418 | The attachment loop and the final update send the requests and report the warnings of `AttachStage`. |
| `MailExport.ProcessMail` | src/background.ts:148-420 | `processMail` sends exactly the requests, and returns exactly the error and warnings, of `Export`. |
| `MailExport.CompleteNote` | src/background.ts:269-420 | The part after the note's creation behaves as `AfterCreate`. |
| `ExportProperties.TagStepTraffic` | src/background.ts:306-366 | The exact requests for one tag, all for the trimmed name `Trim(tag)`. First `SearchTag(Trim(tag))`. A failed search or several matches: nothing more. One match: `AttachTag(found.items[0].id, noteId)`. No match: `CreateTag(Trim(tag))`, then, unless that fails, `AttachTag(created.id, noteId)` with the created tag's id. |
| `ExportProperties.TagStepWarnings` | src/background.ts:306-366 | One tag adds exactly one warning when it stops short, and none otherwise. Several matches give `TooManyTags(Trim(tag), Join(Titles(found.items), ", "))`. A failed reply gives the warning of the request it answered: `SearchFailed`, `CreateTagFailed` or `AttachTagFailed` with the reply's text. |
| `ExportProperties.TagLoopTraffic` | src/background.ts:306-366 | The tag loop only appends tag requests, between one and three per tag, and only adds warnings. |
| `ExportProperties.TagStepAnswered` | src/background.ts:323-351 | Against a service that accepts everything and finds `n` tags, one tag sends exactly: n = 0, search, create and attach the created id; n = 1, search and attach the found id; n > 1, the search only. It warns only for n > 1, with `TooManyTags(Trim(tag), Join(Titles(found.items), ", "))`. |
| `ExportProperties.TagLoopAnswered` | src/background.ts:306-366 | Against that service, the loop sends `RequestsPerTag(n)` requests per tag and one warning per tag exactly when n > 1. |
| `ExportProperties.SingleStoredTag` | __tests__/test_background.ts:682-691 | A stored tag list without a comma is one tag candidate. |
| `ExportProperties.TagCandidatesCount` | src/background.ts:291-304 | The candidates are the stored pieces followed by one name per email tag when those are included. The stored pieces join back to the stored list. |
| `ExportProperties.AttachmentLoopUploads` | src/background.ts:380-406 | The attachment loop uploads every attachment once, in order, whatever the service answers, and only adds warnings. |
| `ExportProperties.AttachmentLoopContents` | src/background.ts:380-406 | The summary is the "Attachments" heading followed by one `AttachmentLink(name, id)` per successful upload, in order (`Links`). Each failed upload adds exactly its own `CreateResourceFailed` warning, in order (`UploadFailures`). |
| `ExportProperties.AttachStageRequests` | src/background.ts:378-418 | Without attachments nothing is sent. With attachments, the uploads are followed by one `UpdateNote` whose body is the note's body, the heading and the links of the successful uploads. The warnings are the failed uploads', then `AttachResourceFailed` when the update fails. |
| `ExportProperties.AttachStageAnswered` | __tests__/test_background.ts:752-757 | Against a service that accepts everything, the stage sends one request per attachment plus one update, and warns about nothing. |
| `ExportProperties.HeaderStepRequests` | src/background.ts:272-285 | The header step sends nothing without a template. With one, it sends a single update whose body is the header rendered by `renderString` as written, followed by the note's body. |
| `ExportProperties.AfterHeaderTraffic` | src/background.ts:306-420 | After the header the export never fails and only appends requests. With attachments ignored, it uploads nothing. |
| `ExportProperties.AfterCreateErrors` | src/background.ts:269-285 | Once the note exists, the export fails exactly when the header update fails. That update is then the last request, and the error quotes its reply. Conversely, a failed header update ends the export with "Failed to add header info to note: " and the reply's text, with no warnings and no tag or attachment request after it. |
| `ExportProperties.ExportErrors` | src/background.ts:154-285 | The export only appends requests. It sends nothing exactly when preparation fails, and then returns that error. A later error follows a failed create or header request, which is the last one sent, and quotes its reply. Every error is non-empty and comes without warnings. Success implies that the note was created. Conversely, a failed creation ends the export after that one request with "Failed to create note: " and the reply's text (test at __tests__/test_background.ts:195-213). |
| `ExportProperties.IgnoredAttachments` | src/background.ts:372-375 | With attachments set to "ignore", the export uploads nothing. |
| `ExportProperties.AfterHeaderCount` | src/background.ts:306-418 | After the header, against a service that accepts everything, the request count is `RequestsPerTag(n)` per tag plus, with attachments handled, one per attachment and one update. |
| `ExportProperties.ExportRequestCount` | __tests__/test_background.ts:666-672 | The request count of a whole successful export is 1 + header + `RequestsPerTag(n)` per tag + attachments. It succeeds, with one warning per tag when n > 1 (tests at 666-672, 688-691, 706-708, 752-757). |
| `Notify.Summarize` | src/background.ts:93-130 | The success flag and the notification texts computed by the loop are `SummaryOf`. |
| `Notify.ExportAll` | src/background.ts:112 | The emails are exported one after the other, one result per email. |
| `Notify.GetAndProcessMessages` | src/background.ts:90-146 | The whole run sends exactly the requests of `Session` and shows its notification. |
| `Notify.ExportAllErrors` | src/background.ts:112-119 | The fold gives one result per email and only appends requests. A result is an error exactly when it holds a non-empty text. |
| `Notify.SessionSuccess` | src/background.ts:113-119 | With a token, the run succeeds exactly when no email's export reported an error. |
| `Notify.SessionWithoutToken` | src/background.ts:99-103 | Without a token, nothing is sent. "API token missing." is shown, with the red icon, under "always" and "onFailure". |
| `Notify.NotificationModes` | src/background.ts:134-138 | The gate: "always" shows every outcome, "onSuccess" only successes, "onFailure" only failures, and any other mode nothing. |
| `Notify.CountMessageNumber` | src/background.ts:122-126 | The success message is "Exported one email." for one email, and otherwise names the decimal count. |
| `Notify.OneResultSummary` | src/background.ts:113-129 | For one result, success gives the blue "Exported one email." and an error gives the red "Please check the developer console.". |
| `Notify.OneEmailNotification` | __tests__/test_background.ts:216-276 | The notification test table with one email: what is shown for each mode and each outcome. |
| `Notify.HeaderlessFails` | __tests__/test_background.ts:328-337 | An email without a header fails with "Mail header is empty" and sends nothing. |

## Left out

- **Subject and author trimming.** The trimming regular expressions (src/background.ts:167-177) use the JavaScript RegExp engine. The trimmed values are inputs of the email record; only the empty-pattern case is computed.
- **Date formatting.** Formatting with luxon (src/background.ts:178-181) is an input too. Without a format, the date's own text is used, or "undefined" when there is no date.
- **HTTP.** `fetch`, `FormData`, JSON bodies, URLs and tokens are not modelled. The service is a function from the request history to a reply. The attachment file's contents and the search URL's encoding are not modelled.
- **Settings and host APIs.** `getSetting` and `generateUrl` (`./common`) are not part of this model; the settings are one immutable record. The browser and messenger APIs (menus, listeners, tabs, displayed messages, `getFull`, `listTags`, the selected text, attachment listing) are inputs.
- **Concurrency.** `Promise.all` runs `processMail` over all emails at once. The model exports them one after the other, so how the requests of different emails interleave is not captured.
- **Logging.** The console output is not modelled. Warnings are returned as values, and the errors logged per email are the results themselves.
- **Context values.** The context holds strings. Turning arrays and booleans into text (test rows at __tests__/test_background.ts:796-797) and `$` patterns in `replace` values are not modelled.
- **Missing header fields.** The header's subject and author are modelled as present strings. The header's `tags` is modelled as a sequence that is always present. With tags from the email switched on, the source's `mailHeader.tags.map(...)` (src/background.ts:299) throws a `TypeError` on a header without `tags`; the model does not capture that exception.
- **Unknown tag keys.** An email tag key with no entry in the client's tag list makes the source throw. `MailExport.ProcessMail` and `Notify.GetAndProcessMessages` require instead that every key is known (`TagsKnown`).
- **Other note formats.** When both bodies exist and the format is neither "text/html" nor "text/plain", the source sets neither field. `ChooseBody` models that case; only `ChooseExactlyOne` excludes it.
- **Renderer choice.** The export renders the title and the header with `Template.RenderString`, the renderer as written, as the source does. The corrected renderer `Template.RenderIntended` (see Findings) is not used by the export. `Template.RenderAgrees` proves the two equal on ordinary templates and values.
- **Inherited context keys.** The context's keys are its own keys only. In JavaScript, `key in context` also finds names inherited from `Object.prototype`. The source then renders `{{toString}}` as `[object Undefined]` and `{{__proto__}}` as `[object Object]`, and throws a `TypeError` for `{{valueOf}}` or `{{hasOwnProperty}}`. The model treats those names as unknown and leaves such placeholders as they are.

## Findings

| source | as written | input that shows it | evidently intended | confidence | as-written member | corrected member |
|---|---|---|---|---|---|---|
| src/background.ts:74-82 | Each match replaces the FIRST occurrence of its text in the partly rendered string. A known placeholder can therefore be replaced inside an earlier, unknown match. | `{{{{k}}}} {{k}}` with only `k` known gives `{{v}} {{k}}` | Every placeholder is replaced where it stands: `{{{{k}}}} v` | medium, not executed | `TemplateExamples.NestedAsWritten` | `TemplateExamples.NestedIntended` |
| src/background.ts:74-82 | The replacement is searched in the already rendered string, so an earlier value that contains a later placeholder's text is rewritten, and the template's own placeholder is left. | `{{a}} {{b}}` with `a` ↦ `x{{b}}`, `b` ↦ `y` gives `xy {{b}}` | Values are inserted verbatim: `x{{b}} y` | medium, not executed | `TemplateExamples.RescannedAsWritten` | `TemplateExamples.RescannedIntended` |
