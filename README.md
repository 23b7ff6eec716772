# Portfolio site: sitemap generator and contact form

This project models two pieces of a personal portfolio web site in Dafny and
proves properties of them.

- **The sitemap generator** (`scripts/generate-sitemap.mjs`). It reads a
  `.env` file of `KEY=VALUE` lines and picks the site's base URL: first
  `VITE_SITE_URL` from the process environment, then the same key from the
  file, then `https://gathuto.vercel.app`. It removes one trailing slash and
  writes a Sitemaps 0.9 `urlset` document with one `<url>` element per route.
  - `EnvFile` models the `.env` parser. `ParseEnv` is its specification, as a
    fold over the file's entries. `ReadEnvFile` is the loop, proved against
    that fold.
  - `Sitemap` models URL selection, `normalizeSiteUrl`, `toUrlPath` and the
    XML text. It also has a small reader for the documents the generator
    writes. The reader is the generator's partner: reading back a generated
    document gives its entries.
- **The contact form** (`src/app/components/Contact.tsx`). The component
  holds three state cells: the form fields, a submission status
  (`idle`/`sending`/`success`/`error`) and an error message.
  - Editing a field stores the value and sets the status back to `idle`.
  - Submitting without a configured Formspree form ID fails at once.
    Otherwise the status becomes `sending` and the fields are posted with
    `_replyto` set to the sender's email.
  - The settled request decides between `success`, which empties the fields,
    and `error`, with the server's message, a templated one or a network one.
  - `Contact` states each handler as a function from the old state to the new
    one. The class `ContactForm` holds the three cells as fields, and its
    methods are proved to make exactly those transitions.
  - A submission is split at its `await`: `BeginSubmit` runs up to the
    request, and `CompleteSubmit` receives the outcome.
  - Lemmas cover any sequence of events, the display conditions and the
    scenarios the form handles.
- `Strings` holds the JavaScript string built-ins these rely on:
  - `trim`, with the full ECMAScript white-space and line-terminator set;
  - `indexOf`;
  - `split(/\r?\n/)`;
  - `join`;
  - the decimal rendering of a status code.

Three behaviours of the contact form's code that the model keeps as written:

- **Editing while `sending`.** Editing a field while a submission is in
  flight sets the status to `idle`, because the code resets any status other
  than `idle` (`src/app/components/Contact.tsx:69`).
- **The error message on an edit.** An edit does not clear the error message;
  only the start of a submission clears it (`Contact.tsx:34`). Nothing shows
  the stale message, because the error line needs status `error`
  (`Contact.ErrorShownIffError`).
- **A JSON `null` body.** If a rejected response's body is JSON `null`,
  reading `error` from it throws inside the `try` (`Contact.tsx:48-52`). The
  `catch` then shows the network-error message (`Contact.tsx:58-60`), not a
  server or templated one.

## Model

| member | source | states |
|---|---|---|
| `Strings.SkipSpaceSkipsSpace` | scripts/generate-sitemap.mjs:18 | The start of a trimmed line passes over white space only and stops at the first other character. |
| `Strings.SkipSpaceBackSkipsSpace` | scripts/generate-sitemap.mjs:18 | The end of a trimmed line passes back over white space only and stops after the last other character. |
| `Strings.IsSpace` | scripts/generate-sitemap.mjs:18 | Membership in the `WhiteSpace` table, the ECMAScript WhiteSpace and LineTerminator code points that `trim` removes. It has no contract of its own; `SkipSpaceSkipsSpace`, `SkipSpaceBackSkipsSpace` and `TrimEndsNotSpace` state what it decides. |
| `Strings.TrimStart` | scripts/generate-sitemap.mjs:18 | `trimStart` returns a suffix of the line. What it drops is stated by `SkipSpaceSkipsSpace`. |
| `Strings.TrimEnd` | scripts/generate-sitemap.mjs:18 | `trimEnd` returns a prefix of the line. What it drops is stated by `SkipSpaceBackSkipsSpace`. |
| `Strings.Trim` | scripts/generate-sitemap.mjs:18 | `trim` is `trimStart` after `trimEnd`. It has no contract of its own; its properties are the `Trim...` lemmas below. |
| `Strings.TrimEndsNotSpace` | scripts/generate-sitemap.mjs:18 | A trimmed line is empty or begins and ends with a character that is not white space. |
| `Strings.TrimUnpadded` | scripts/generate-sitemap.mjs:18 | A line with no white space at either end is its own trimmed text. |
| `Strings.TrimKeepsCharacters` | scripts/generate-sitemap.mjs:18 | Trimming adds no character: every character of the result occurs in the line. |
| `Strings.TrimEmptyIffSpace` | scripts/generate-sitemap.mjs:18-19 | A trimmed line is empty exactly when the line is all white space, which is exactly what the `line &&` filter drops. |
| `Strings.TrimIdempotent` | scripts/generate-sitemap.mjs:18 | Trimming a trimmed line changes nothing. |
| `Strings.TrimIgnoresTrailingSpace` | scripts/generate-sitemap.mjs:18 | A white-space character appended to a line does not change its trimmed text. |
| `Strings.DropCarriageReturn` | scripts/generate-sitemap.mjs:17 | The `\r?` of `split(/\r?\n/)`: the result is a prefix of the text, and exactly one character shorter exactly when the text ends in `\r`. |
| `Strings.StartsWith` | scripts/generate-sitemap.mjs:48 | `startsWith`: the text begins with the prefix. It has no contract of its own; `RouteTail` and `ToUrlPath` state both branches that test it. |
| `Strings.TrimDropCarriageReturn` | scripts/generate-sitemap.mjs:17-18 | A line and the same line without its final carriage return trim to the same text, so `\r\n` and `\n` files give the same entries. |
| `Strings.IndexOf` | scripts/generate-sitemap.mjs:23 | The result is -1 exactly when the character is absent. Otherwise it is an index holding the character, with no earlier occurrence. |
| `Strings.IndexOfAfter` | scripts/generate-sitemap.mjs:23 | When `a` has no `c` and `b` starts with one, the first `c` of `a + b` is at the length of `a`. |
| `Strings.SplitLines` | scripts/generate-sitemap.mjs:17 | `split(/\r?\n/)` reads the text character by character (`Strings.Feed`, `Strings.FeedAll`). It always gives at least one piece. Its partner lemmas follow. |
| `Strings.FeedAllAppend` | scripts/generate-sitemap.mjs:17 | Reading `a + b` is reading `a`, then `b`. |
| `Strings.FeedAllKeepsDone` | scripts/generate-sitemap.mjs:17 | Lines already ended stay in front, unchanged, of the lines the rest of the text ends. |
| `Strings.FeedAllWithinLine` | scripts/generate-sitemap.mjs:17 | Text without a `\n` only extends the current line. |
| `Strings.SplitLinesOfLine` | scripts/generate-sitemap.mjs:17 | A text without a `\n` splits into itself alone. |
| `Strings.FeedAllKeepsNoBreak` | scripts/generate-sitemap.mjs:17 | Reading text never puts a `\n` into a line. |
| `Strings.SplitLinesHaveNoBreak` | scripts/generate-sitemap.mjs:17 | No piece of a split holds a `\n`. |
| `Strings.SplitLinesFirstLine` | scripts/generate-sitemap.mjs:17 | The first line ends at the first `\n` and loses one trailing `\r`. The text after that break is split on its own. |
| `Strings.SplitLinesAtBreak` | scripts/generate-sitemap.mjs:17 | Splitting `a + "\n" + b` gives the lines of `a`, the last without its `\r`, then the lines of `b`. |
| `Strings.SplitJoin` | scripts/generate-sitemap.mjs:17 | Splitting undoes joining with `\n`, for lines without `\n` that do not end in `\r`, except possibly the last. |
| `Strings.Join` | scripts/generate-sitemap.mjs:60 | `join(sep)`: no pieces give `""`, one piece is itself, more are separated by `sep`. It has no contract of its own; `SplitJoin` is its partner. |
| `Strings.DecimalString` | src/app/components/Contact.tsx:52 | The rendered status code is one or more decimal digits, with no leading zero. |
| `Strings.DecimalRoundTrip` | src/app/components/Contact.tsx:52 | Reading the decimal text back gives the status code, so the rendering loses nothing. |
| `EnvFile.KeptLinesAreEntries` | scripts/generate-sitemap.mjs:18-19 | Every kept entry is trimmed, non-empty and does not start with `#`. |
| `EnvFile.KeptLinesAppend` | scripts/generate-sitemap.mjs:18-19 | The trim-and-filter pipeline works line by line: the entries of two runs of lines are those of each. |
| `EnvFile.KeptLine` | scripts/generate-sitemap.mjs:18-19 | A single line gives its trimmed text if that text is an entry, and nothing otherwise. |
| `EnvFile.EntriesAtBreak` | scripts/generate-sitemap.mjs:16-19 | The entries of `a + "\n" + b` are the entries of `a` followed by those of `b`. |
| `EnvFile.IsEntry` | scripts/generate-sitemap.mjs:19 | The filter `line && !line.startsWith('#')`: a non-empty line whose first character is not `#`. It has no contract of its own; `KeptLine`, `KeptLinesAreEntries` and `BlankOrCommentLineIgnored` state what it keeps. |
| `EnvFile.KeptLines` | scripts/generate-sitemap.mjs:18-19 | Every line kept by the trim-and-filter pipeline is non-empty and does not start with `#`. |
| `EnvFile.Entries` | scripts/generate-sitemap.mjs:16-19 | A file's entries are its lines, split, trimmed and filtered. It has no contract of its own; `EntriesAtBreak` and `EntriesOfLine` state how it behaves. |
| `EnvFile.IsQuote` | scripts/generate-sitemap.mjs:29 | The character class `['"]`: a single or a double quote. It has no contract of its own; the `StripQuotes...` lemmas state where it applies. |
| `EnvFile.StripQuotes` | scripts/generate-sitemap.mjs:29 | At most one character is removed at each end. The lemmas below say which. |
| `EnvFile.StripQuotesLeading` | scripts/generate-sitemap.mjs:29 | A quote at the start alone is removed, and the end is left as it is (`'abc` gives `abc`). |
| `EnvFile.StripQuotesTrailing` | scripts/generate-sitemap.mjs:29 | A quote at the end alone is removed, and the start is left as it is (`abc"` gives `abc`). |
| `EnvFile.StripQuotesLone` | scripts/generate-sitemap.mjs:29 | A lone quote gives the empty string. |
| `EnvFile.StripQuotesAround` | scripts/generate-sitemap.mjs:29 | One quote at each end is removed, matching or not (`'x"` gives `x`). |
| `EnvFile.StripQuotesOnce` | scripts/generate-sitemap.mjs:29 | Only one quote is removed at each end. |
| `EnvFile.StripQuotesUnquoted` | scripts/generate-sitemap.mjs:29 | A value with no quote at either end is kept as it is. |
| `EnvFile.ParseEntry` | scripts/generate-sitemap.mjs:23-26 | An entry assigns nothing exactly when it holds no `=`. |
| `EnvFile.ParseEntrySplitsAtFirstEquals` | scripts/generate-sitemap.mjs:23-29 | The key is the trimmed text before the first `=`. The value is the trimmed text after it, quotes stripped, and may itself hold `=`. |
| `EnvFile.ParseEntryAt` | scripts/generate-sitemap.mjs:23-29 | Given the index of the first `=`, an entry's assignment is the slices the loop takes, or nothing when the index is -1. |
| `EnvFile.ParseEntryAtSeparator` | scripts/generate-sitemap.mjs:23-29 | When the first `=` is at a valid index, the entry assigns the trimmed text before it, and the trimmed, quote-stripped text after it. |
| `EnvFile.Assignments` | scripts/generate-sitemap.mjs:22-29 | The assignments made by a run of entries: one per entry, in order, each what `ParseEntry` gives for that entry. |
| `EnvFile.Store` | scripts/generate-sitemap.mjs:24-30 | One step of the loop: `parsed[key] = value`, or nothing for an entry without `=`. It has no contract of its own; `AssignOverrides` and `LastAssignmentWins` state its effect. |
| `EnvFile.Assign` | scripts/generate-sitemap.mjs:21-31 | The loop's effect: the assignments made in order on top of `parsed`. It has no contract of its own; `AssignAppend` and `AssignOverrides` are its lemmas. |
| `EnvFile.ParseEnv` | scripts/generate-sitemap.mjs:16-33 | The object `readEnvFile` builds from a file's text. It has no contract of its own; `ReadEnvFile` is proved equal to it, and the lemmas below state its properties. |
| `EnvFile.EnvFromFile` | scripts/generate-sitemap.mjs:13-37 | `{}` for a file that cannot be read, else the parsed text. It has no contract of its own; `ReadEnvFile`'s contract names it. |
| `EnvFile.ReadEnvFile` | scripts/generate-sitemap.mjs:13-37 | The loop returns `{}` for an unreadable file. Otherwise it returns exactly the fold of the file's entries (`ParseEnv`); the loop invariant is the fold of the entries not yet visited. |
| `EnvFile.AssignOverrides` | scripts/generate-sitemap.mjs:30 | Assigning entries on top of an object gives that object overridden by what the entries alone assign. |
| `EnvFile.AssignAppend` | scripts/generate-sitemap.mjs:22-31 | Assigning two runs of entries is assigning the first, then the second. |
| `EnvFile.AssignmentsAppend` | scripts/generate-sitemap.mjs:22-31 | The assignments of two runs of entries are those of each, in order. |
| `EnvFile.LaterLinesOverride` | scripts/generate-sitemap.mjs:22-31 | Lines further down win: the object parsed from `a + "\n" + b` is that of `a` overridden by that of `b`. |
| `EnvFile.EntriesOfLine` | scripts/generate-sitemap.mjs:16-19 | A text without line breaks has at most one entry: its trimmed text, if not blank or a comment. |
| `EnvFile.SingleLine` | scripts/generate-sitemap.mjs:16-31 | A single line assigns what its trimmed text assigns, or nothing. |
| `EnvFile.InertLineParsesEmpty` | scripts/generate-sitemap.mjs:19-26 | A blank line, a comment or a line without `=` parses to `{}`. |
| `EnvFile.InertLineAddsNothing` | scripts/generate-sitemap.mjs:19-26 | Such a line, anywhere in a file, changes nothing. |
| `EnvFile.BlankOrCommentLineIgnored` | scripts/generate-sitemap.mjs:19 | Blank lines and `#` comments anywhere in a file change nothing. |
| `EnvFile.LineWithoutSeparatorIgnored` | scripts/generate-sitemap.mjs:23-26 | A line without `=` anywhere in a file changes nothing. |
| `EnvFile.LastAssignmentWins` | scripts/generate-sitemap.mjs:30 | A final line `KEY=VALUE` sets that key over whatever the lines before it set. |
| `EnvFile.PlainLineAssigns` | scripts/generate-sitemap.mjs:16-31 | A file that is one line `KEY=VALUE` of printable characters, with no `=` in the key, no leading `#` and no quote at either end of the value, parses to exactly `{KEY: VALUE}`. |
| `Sitemap.Lookup` | scripts/generate-sitemap.mjs:53 | An unset variable reads as the empty string, which is just as falsy to JavaScript's "or"; a set one reads as its value. |
| `Sitemap.Or` | scripts/generate-sitemap.mjs:53-54 | JavaScript's "or" on strings: the first when it is non-empty, otherwise the second. The result is empty only when both are. |
| `Sitemap.ChooseSiteUrl` | scripts/generate-sitemap.mjs:53-54 | The URL is never empty. It is the process variable if non-empty, else the file's value if non-empty, else the fallback URL. |
| `Sitemap.NormalizeSiteUrl` | scripts/generate-sitemap.mjs:39-41 | A URL ending in `/` loses exactly that one slash; any other URL is unchanged. |
| `Sitemap.SiteUrl` | scripts/generate-sitemap.mjs:53-54 | The normalised choice of base URL. It has no contract of its own; `ChooseSiteUrl` and `NormalizeSiteUrl` carry the properties. |
| `Sitemap.RouteTail` | scripts/generate-sitemap.mjs:48 | A route without its leading slash: prefixing `/` restores it when it had one. |
| `Sitemap.ToUrlPath` | scripts/generate-sitemap.mjs:43-49 | The URL of every route, `/` included, is the base URL, one slash, then the route without its leading slash. |
| `Sitemap.Priority` | scripts/generate-sitemap.mjs:59 | The priority is `1.0` exactly for the root route and `0.8` exactly for every other. |
| `Sitemap.RouteEntry` | scripts/generate-sitemap.mjs:59 | A route's entry: its URL, `weekly` and its priority. It has no contract of its own; `RouteEntryPlain` and `RouteEntriesInOrder` state its use. |
| `Sitemap.RouteEntries` | scripts/generate-sitemap.mjs:58-59 | One entry per route. |
| `Sitemap.UrlElement` | scripts/generate-sitemap.mjs:59 | The text of one `<url>` element. It has no contract of its own; `ParseElementOfUrlElement` reads it back. |
| `Sitemap.Elements` | scripts/generate-sitemap.mjs:58-59 | One element per entry, in order: element `i` is the `<url>` element of entry `i`. |
| `Sitemap.Document` | scripts/generate-sitemap.mjs:58-62 | The header, the elements joined by `\n`, the footer. It has no contract of its own; `DocumentRoundTrip` reads it back. |
| `Sitemap.SitemapXml` | scripts/generate-sitemap.mjs:56-62 | The document for a list of routes under a base URL. It has no contract of its own; `SitemapListsEveryRoute` and `HomePageDocument` state what it holds. |
| `Sitemap.RouteEntriesInOrder` | scripts/generate-sitemap.mjs:58-59 | Entry `i` is route `i`'s URL, `weekly` and its priority. |
| `Sitemap.ParseElementOfUrlElement` | scripts/generate-sitemap.mjs:59 | When no field holds `<`, a written `<url>` element is read back as the same entry, and reading stops right after it. |
| `Sitemap.ParseElementListOfJoin` | scripts/generate-sitemap.mjs:58-60 | When no field of any entry holds `<`, the elements joined by `\n` are read back as all the entries, in order. |
| `Sitemap.DocumentRoundTrip` | scripts/generate-sitemap.mjs:58-62 | Reading back a whole generated document, header and footer included, gives its entries, in order. |
| `Sitemap.RouteEntryPlain` | scripts/generate-sitemap.mjs:43-49 | A route's URL holds no `<` when neither the base URL nor the route does. |
| `Sitemap.SitemapListsEveryRoute` | scripts/generate-sitemap.mjs:56-62 | The sitemap lists every route, in order, each with its URL, `weekly` and its priority, and nothing else. |
| `Sitemap.RootLocation` | scripts/generate-sitemap.mjs:39-49 | The home page's URL is the chosen URL if it already ends in `/`, and that URL plus `/` otherwise. |
| `Sitemap.GenerateSitemap` | scripts/generate-sitemap.mjs:51-62 | The base URL is the normalised choice from the process environment and the parsed file. The document is the sitemap of the routes under that URL. |
| `Sitemap.HomePageSitemap` | scripts/generate-sitemap.mjs:54-62 | With the site's one route, the document holds exactly one entry: the base URL with a slash, `weekly`, `1.0`. |
| `Sitemap.HomePageDocument` | scripts/generate-sitemap.mjs:56-62 | For every base URL, the document is the header, the one `<url>` element of the home page (the base URL with a slash, `weekly`, `1.0`) and the footer. |
| `Sitemap.ExampleEnvLine` | scripts/generate-sitemap.mjs:13-37 | The file `VITE_SITE_URL=https://example.com/` parses to that single variable, slash included. |
| `Sitemap.ExampleSiteUrlFromFile` | scripts/generate-sitemap.mjs:51-59 | With that file and the variable unset in the process, the base URL is `https://example.com` and the home page's URL is `https://example.com/`. |
| `Sitemap.ExampleSitemapFromFile` | scripts/generate-sitemap.mjs:51-62 | With that file and the variable unset in the process, the whole sitemap is the header, the single home-page element with `<loc>https://example.com/</loc>`, and the footer. |
| `Contact.FormFields.With` | src/app/components/Contact.tsx:64-68 | Editing a field sets that field and leaves the other two unchanged. |
| `Contact.PayloadOf` | src/app/components/Contact.tsx:40-45 | The posted body carries the three fields, with `_replyto` equal to the email. |
| `Contact.Configured` | src/app/components/Contact.tsx:27 | The form counts as configured when its ID is set and not empty. It has no contract of its own; `Begun` and `SubmitUnconfigured` use it. |
| `Contact.FailedMessage` | src/app/components/Contact.tsx:52 | The templated message that embeds the status code. It has no contract of its own; `FailedMessageInjective` shows the code can be read back. |
| `Contact.Ok` | src/app/components/Contact.tsx:50 | `res.ok`: the status is in 200-299. It has no contract of its own; `Settled` uses it. |
| `Contact.Begun` | src/app/components/Contact.tsx:25-46 | A request is sent exactly when a form ID is configured. Without one: `error` and the not-configured message. With one: `sending`, the message cleared, a POST to `https://formspree.io/f/<id>` with the fields. The fields stay either way. |
| `Contact.RejectionMessage` | src/app/components/Contact.tsx:48-60 | A rejected submission always has a non-empty message to show. A `null` body gives the network message. A non-empty string `error` in the body is shown as it is. An unparsable body, a missing `error` or an empty one gives the templated message with the status code. |
| `Contact.Settled` | src/app/components/Contact.tsx:48-61 | The status is `success` exactly for a 2xx response, and then the fields are emptied. Otherwise it is `error` with a non-empty message and the fields kept. A transport failure shows the network message, and a response that is not OK shows its rejection message. |
| `Contact.Edited` | src/app/components/Contact.tsx:64-70 | An edit sets one field, keeps the others, makes the status `idle` and keeps the message. |
| `Contact.SuccessShown` | src/app/components/Contact.tsx:284 | The success line renders when the status is `success`. It has no contract of its own; `StatusLinesExclusive` is its lemma. |
| `Contact.ErrorShown` | src/app/components/Contact.tsx:290 | The error line renders when the status is `error` and the message is non-empty. It has no contract of its own; `ErrorShownIffError` is its lemma. |
| `Contact.SubmitDisabled` | src/app/components/Contact.tsx:298 | The submit button is disabled while `sending`. It has no contract of its own; `StatusLinesExclusive` is its lemma. |
| `Contact.Step` | src/app/components/Contact.tsx:25-70 | One event: an edit, a submit or a completion. It has no contract of its own; `RunKeepsConsistency` is its lemma. |
| `Contact.Run` | src/app/components/Contact.tsx:25-70 | The events in order. It has no contract of its own; `RunKeepsConsistency` is its lemma. |
| `Contact.Edits` | src/app/components/Contact.tsx:64-70 | A run of edits. It has no contract of its own; `LastWriteWins` is its lemma. |
| `Contact.HandlersEstablishConsistency` | src/app/components/Contact.tsx:25-70 | After any handler, `error` carries a non-empty message and `sending` carries none. |
| `Contact.ErrorShownIffError` | src/app/components/Contact.tsx:290 | In such a state the error line shows exactly when the status is `error`. |
| `Contact.StatusLinesExclusive` | src/app/components/Contact.tsx:284-298 | The success and error lines never show together, and neither shows while the button is disabled for sending. |
| `Contact.RunKeepsConsistency` | src/app/components/Contact.tsx:25-70 | After any sequence of edits, submissions and completions, the state is consistent and the error line shows exactly when the status is `error`. Every handler makes any state consistent, so only an empty run needs a consistent start. |
| `Contact.LastWriteWins` | src/app/components/Contact.tsx:64-69 | After a run of edits, each field holds the value of its last edit, or its old value if untouched. The status is `idle` after any edit; the message is unchanged. |
| `Contact.UntouchedFieldKept` | src/app/components/Contact.tsx:64-68 | A field that no edit names keeps its value. |
| `Contact.LastWriteKept` | src/app/components/Contact.tsx:64-68 | A field ends with the value of the last edit naming it. |
| `Contact.EditsStatusLine` | src/app/components/Contact.tsx:64-69 | Any edit leaves the status `idle`, and edits never touch the error message. |
| `Contact.ContactForm.constructor` | src/app/components/Contact.tsx:14-20 | The form starts with empty fields, `idle` and no message. |
| `Contact.ContactForm.HandleChange` | src/app/components/Contact.tsx:64-70 | The component's state after `handleChange` is `Edited` of the old state. |
| `Contact.ContactForm.BeginSubmit` | src/app/components/Contact.tsx:25-46 | The state and the request sent are `Begun` of the old state and the form ID. |
| `Contact.ContactForm.CompleteSubmit` | src/app/components/Contact.tsx:48-61 | The state after the request settles is `Settled` of the old state and the outcome. |
| `Contact.SubmitAccepted` | src/app/components/Contact.tsx:33-57 | A 200 response to a configured form: the payload is the fields with `_replyto` = email, then `success`, empty fields, no message. |
| `Contact.SubmitRejectedWithServerError` | src/app/components/Contact.tsx:50-53 | A 422 response with `{error: "bad email"}` gives `error`, the message `bad email` and the fields kept. |
| `Contact.RejectionNamesStatus` | src/app/components/Contact.tsx:52 | A rejection whose body names no error gets the templated message with the status code. |
| `Contact.FailedMessageInjective` | src/app/components/Contact.tsx:52 | Different status codes give different templated messages. |
| `Contact.SubmitFailsInTransport` | src/app/components/Contact.tsx:58-61 | A request that throws gives `error`, the network message and the fields kept. |
| `Contact.SubmitUnconfigured` | src/app/components/Contact.tsx:27-31 | With no form ID, or an empty one, no request is made and the not-configured error shows. |
| `Contact.EditClearsStatusLine` | src/app/components/Contact.tsx:69 | After an edit neither status line shows and the button is enabled. |

## Left out

- File I/O is not modelled:
  - Reading `.env` becomes an `Option<string>` input, with `None` for a file that cannot be read.
  - Writing `public/sitemap.xml` becomes the method's result.
  - The console message is dropped.
  - Resolving the paths from `import.meta.url` is dropped.
- Text is a sequence of Unicode code points, whereas JavaScript strings are UTF-16 code units.
  - The two agree on every character the parser and `trim` look at.
  - Decoding the file's bytes as UTF-8 happens before the model's input.
- A key named `__proto__` is not modelled. In the JavaScript object `parsed`, assigning a string to that key goes through the inherited `__proto__` setter, which ignores it, so the line adds nothing; the model's map stores it like any other key.
- The process environment is a map from names to strings; reading it is the lookup.
- The HTTP exchange is abstracted:
  - `fetch`, the request headers and the JSON serialisation of the body are not modelled; the request is a URL and a `Payload` value.
  - The response becomes an `Outcome`: its status and what `res.json()` yielded, or a transport failure.
  - A JSON `error` property that is not a string (a number or an object) is not modelled: `ResponseBody` carries only string errors.
- React's asynchronous state updates and stale closures are not modelled.
  - Each handler acts on the state as it stands when its event occurs.
  - A submission's completion is a separate event that `Contact.Run` may interleave with any others. A second submission while one is in flight is therefore covered, since the disabled button is only advisory.
  - The `Submit` event accepts any field values. The browser does not fire `onSubmit` while a `required` field is empty (Contact.tsx:233, :253, :273) or while the `type="email"` field holds a malformed address (:249). Accepting every value over-approximates that, so every property proved about `Run` also holds for the submissions the browser lets through.
- Rendering is not modelled: markup, animations, icons and the contact details sidebar. Only the three display conditions are (the success line, the error line, the disabled button).
- The other components of the site (`App.tsx`, `Hero.tsx`, `Navigation.tsx` and the rest) are not part of this model.
- Sitemap.DocumentRoundTrip: requires that no field holds `<`. The generator escapes nothing, so a `<` in the base URL or a route would break the markup. `&` is not escaped either, and the reader does not check XML well-formedness.
- Sitemap.SitemapListsEveryRoute: requires no `<` in the base URL or any route, for the same reason.
- Sitemap.HomePageSitemap: requires no `<` in the base URL, for the same reason. `Sitemap.HomePageDocument` states the document itself for every base URL.
