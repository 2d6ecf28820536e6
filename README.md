# Portfolio site: contact intake, article thumbnails and small UI state

This project is a Dafny model of the parts of a personal portfolio site
(Next.js / React, TypeScript) that hold real logic:

- **`POST /api/contact`**: the contact endpoint.
  - It validates name, email and message.
  - With a mail-provider key configured, it sends the submission to the site owner and may send an autoreply.
  - Without a key, it appends the submission to a local JSON store.
  - It is modelled as the class `ContactRoute.ContactEndpoint`. Its state is the store file and the list of mails handed to the provider.
- **The contact form** (`ContactClient.ContactForm`): the `submit` handler's state machine over the input fields, the in-flight flag and the success and error messages.
- **`buildMailto`**: the `mailto:` links built from the message templates.
- **The Medium feed**:
  - `cleanImageUrl`: stripping the size segments of a Medium CDN URL, then adding `/max/800/`.
  - The filter and select stage of `extractImageFromContent`.
  - The thumbnail pipeline run over every feed item.
  - `truncateText`: tag stripping followed by truncation.
- **The skills section**: the ordered, duplicate-free category list drawn from the technology table, and the per-category groups.
- **The projects grid**: the per-card image fit mode (`handleImageLoad`) and its default.
- **The theme switch**: the initial theme and `toggleTheme`, modelled as the class `ThemeToggle.ThemeSwitch`.

JavaScript semantics are spelled out where they matter:

- truthiness of strings and optional values;
- `a || b` defaults;
- `String.prototype.replace` with a string pattern replaces only the first occurrence;
- a non-global regular expression replaces its leftmost match, a global one every match;
- `substring` clamps a negative end to 0;
- a `Set` lists its elements in insertion order.

Strings are `seq<char>`. These are inputs to the model:

- environment variables (`Config`);
- the outcomes of file-system and network steps (`Io`, `FetchResult`);
- the clock (`Io.now`);
- `encodeURIComponent` (a function parameter);
- the regular-expression scans of article HTML (`Scanners`).

Three behaviours of the code are worth spelling out:

- **A store file that parses but is not an array.** The store read of `src/app/api/contact/route.ts:42-49` reads a missing, empty or unparseable file as `[]`: `existing || '[]'` (line 45) turns an empty file into an empty array, and the catch of line 46 handles a failed read or parse. A file that parses to a non-array value (e.g. `null` or an object) is not caught there. The `push` of line 50 then throws, and the handler answers 500 "Email provider not configured and local save failed" (lines 54-57). `StoreFile.NonArray` models this case.
- **The autoreply flag.** Line 78 sends the autoreply only when `SENDGRID_AUTOREPLY` is exactly the string `'1'` (`ContactRoute.AutoreplyEnabled`). Values such as `true` or `yes` leave it off.
- **Lengths are JavaScript's.** `length` and `substring` count UTF-16 code units, so a character outside the Basic Multilingual Plane counts twice (`Strings.Utf16Length`).

## Model

| member | source | states |
|---|---|---|
| `ContactRoute.OrElse` | src/app/api/contact/route.ts:33-34 | `v \|\| fallback`: the value when truthy (present and non-empty), the fallback otherwise |
| `ContactRoute.Truthy` | src/app/api/contact/route.ts:28 | no contract of its own: JavaScript truthiness of a string-or-absent value (absent and "" are falsy); used by `HasRequiredFields`, `OrElse`, `Sender` and `Receiver` |
| `ContactRoute.HasRequiredFields` | src/app/api/contact/route.ts:28 | no contract of its own: all three fields truthy; its effect is stated by `ContactEndpoint.Post` and `EmptyNameExample` |
| `ContactRoute.Sender` | src/app/api/contact/route.ts:33 | the sender is SENDGRID_SENDER when set and non-empty; otherwise it is `no-reply@` + the site domain when that is set and non-empty, and `no-reply@example.com` when it is not |
| `ContactRoute.Receiver` | src/app/api/contact/route.ts:34 | the receiver is never empty: it is CONTACT_RECEIVER_EMAIL when that is set and non-empty, and the owner's default address otherwise |
| `ContactRoute.ReadStore` | src/app/api/contact/route.ts:42-50 | a missing, empty or unparseable store reads as the empty list; an array reads as itself; the read fails exactly for a non-array value, on which `push` throws |
| `ContactRoute.PlainBody` | src/app/api/contact/route.ts:70 | the plain-text body contains the name, the email and the message |
| `ContactRoute.HtmlBody` | src/app/api/contact/route.ts:71 | the HTML body contains the name, the email and the message |
| `ContactRoute.PrimaryMail` | src/app/api/contact/route.ts:60-73 | the owner's mail goes to the receiver, from the sender, with reply-to the submitter, subject "Portfolio contact from " + name, and a text/plain then a text/html part, both containing all three fields |
| `ContactRoute.AutoreplyText` | src/app/api/contact/route.ts:89 | the acknowledgement text contains the submitter's name |
| `ContactRoute.AutoreplyMail` | src/app/api/contact/route.ts:80-91 | the autoreply goes to the submitter, from the sender, with no reply-to, subject "Thanks for contacting " + (owner name or "me"), and one text/plain part naming the submitter |
| `ContactRoute.AutoreplyEnabled` | src/app/api/contact/route.ts:78 | no contract of its own: the flag is exactly the string "1"; its effect is stated by `ContactEndpoint.Post` |
| `ContactRoute.ContactEndpoint.constructor` | src/app/api/contact/route.ts:39-41 | the endpoint starts with the given store file and no mails sent |
| `ContactRoute.ContactEndpoint.Send` | src/app/api/contact/route.ts:6-21 | a send hands exactly this mail to the provider, and reports failure exactly when the provider answers with a non-2xx status |
| `ContactRoute.ContactEndpoint.SaveLocally` | src/app/api/contact/route.ts:38-57 | when mkdir and write succeed and the store reads as a list, the store becomes that list plus exactly one entry at the end and the answer is 200 `{ok, saved:'local'}`; otherwise the answer is 500 with the local-save error and the store is unchanged |
| `ContactRoute.ContactEndpoint.Post` | src/app/api/contact/route.ts:23-103 | a body that does not parse gives 500 "Internal server error", and a falsy field gives 400 "Missing required fields"; neither has a side effect. Without a key there is no send, and the store gains one entry (200) or is unchanged (500). With a key the store is never touched and the owner's mail is always sent. A provider failure then gives 500 "Internal server error" with no local fallback. Otherwise the autoreply is added exactly when the flag is "1", and the answer is 200 `{ok:true}` whatever the autoreply's outcome |
| `ContactRoute.CorruptStoreExample` | src/app/api/contact/route.ts:43-53 | after a valid fallback request on a corrupt store file, the store holds exactly the one new entry and the answer is 200 |
| `ContactRoute.NoDeduplicationExample` | src/app/api/contact/route.ts:50 | the same submission posted twice gives two entries |
| `ContactRoute.EmptyNameExample` | src/app/api/contact/route.ts:28-30 | an empty name is rejected with 400 even with a key and autoreply on; nothing is sent and nothing is stored |
| `ContactClient.FailureMessage` | src/components/Contact.tsx:38 | the error shown is the server's `error` string when it is non-empty, "Submission failed" otherwise, and never empty |
| `ContactClient.ContactForm.constructor` | src/components/Contact.tsx:16-21 | the form starts empty, idle, with no message shown |
| `ContactClient.ContactForm.Edit` | src/components/Contact.tsx:59-74 | an input change sets the three fields and nothing else |
| `ContactClient.ContactForm.Begin` | src/components/Contact.tsx:24-34 | submitting marks the form in flight, clears both messages and posts the current fields |
| `ContactClient.ContactForm.Settle` | src/components/Contact.tsx:36-50 | a 2xx JSON answer shows the success message and clears the fields; a non-2xx JSON answer shows the server's error or "Submission failed" and keeps the fields; a transport failure or a body that is not JSON shows "Network error" and keeps the fields; in every case the form is idle again with at most one message |
| `ContactClient.ContactForm.Submit` | src/components/Contact.tsx:23-51 | the whole handler: the posted document is the fields as they were, and the outcome is the one `Settle` states |
| `ContactClient.Find` | src/components/Contact.tsx:129 | `find` gives the index of the first template with the key, or none when no template has it |
| `ContactClient.Selected` | src/components/Contact.tsx:129 | the template used is one of the table's; it has the requested key when one exists, else it is the first (general) template |
| `ContactClient.Mailto` | src/components/Contact.tsx:130-133 | no contract of its own; the shape of the link it builds from a template is stated by `MailtoShape` |
| `ContactClient.BuildMailto` | src/components/Contact.tsx:128-133 | no contract of its own; its properties are stated by `Selected`, `UnknownKeyUsesGeneral` and `MailtoShape` |
| `ContactClient.UnknownKeyUsesGeneral` | src/components/Contact.tsx:107-131 | a key naming no template gives the same link as "general" |
| `ContactClient.MailtoShape` | src/components/Contact.tsx:128-133 | a link starts with `mailto:` + the owner's address + `?subject=` and ends with `&body=` + the template body as stored, which is not encoded a second time |
| `Strings.FindFrom` | src/components/MediumArticles.tsx:45 | `indexOf(p, i)`: the first occurrence at or after `i`, or none when there is no occurrence there |
| `Strings.Contains` | src/components/MediumArticles.tsx:39 | no contract of its own: `includes`, a search that finds an occurrence; used by `IsMediumCdn`, `WithDefaultSize` and `Accepted` |
| `Strings.StartsWith` | src/components/MediumArticles.tsx:100 | no contract of its own: `startsWith`; used by `Accepted` |
| `Strings.ReplaceFirst` | src/components/MediumArticles.tsx:46 | replacing a string pattern that does not occur changes nothing |
| `Strings.ReplaceFirstAt` | src/components/MediumArticles.tsx:46 | a string pattern is replaced at its first occurrence only, with the rest of the text untouched on both sides |
| `MediumArticles.FirstSegment` | src/components/MediumArticles.tsx:41-42 | the leftmost match of a size-segment pattern: it matches there, no match starts earlier, and none at all when absent |
| `MediumArticles.SegmentEnd` | src/components/MediumArticles.tsx:41-42 | a match of a size pattern starts and ends with a slash; that it matches `/max/<digits>/` and `/<w…><digits>/` exactly is stated by `StripMaxAt` and `StripWidthAt` |
| `MediumArticles.StripSegment` | src/components/MediumArticles.tsx:41-42 | a URL with no match is unchanged; stripping never lengthens a URL nor empties a non-empty one; the leftmost segment becoming a slash is stated by `StripMaxAt` and `StripWidthAt` |
| `MediumArticles.StripSizes` | src/components/MediumArticles.tsx:41-42 | a URL with neither size segment is unchanged; stripping never lengthens a URL nor empties a non-empty one; the removal itself is stated by `StripSizesAt` |
| `MediumArticles.StripMaxAt` | src/components/MediumArticles.tsx:41 | for any prefix without `/max/`, `/max/<digits>/` after it is replaced by one slash and the rest is kept |
| `MediumArticles.StripWidthAt` | src/components/MediumArticles.tsx:42 | for any prefix without `/w`, `/<w…><digits>/` after it is replaced by one slash and the rest is kept |
| `MediumArticles.StripSizesAt` | src/components/MediumArticles.tsx:40-42 | a URL with one `/max/<digits>/` segment and no width segment loses exactly that segment, leaving a slash |
| `MediumArticles.WithDefaultSize` | src/components/MediumArticles.tsx:45-47 | a URL that already has `/max/` or is not on the CDN host is left as it is, and the step never shortens a URL |
| `MediumArticles.IsMediumCdn` | src/components/MediumArticles.tsx:39 | no contract of its own: the URL includes the CDN host or the Miro host; used by `CleanImageUrl` |
| `MediumArticles.CleanImageUrl` | src/components/MediumArticles.tsx:35-53 | empty stays empty, non-empty stays non-empty, and a URL on neither Medium host is returned unchanged |
| `MediumArticles.SizeInserted` | src/components/MediumArticles.tsx:45-47 | a CDN URL without `/max/` gets `/max/800/` exactly after the first host-and-slash, the rest untouched |
| `MediumArticles.CdnSizeInserted` | src/components/MediumArticles.tsx:35-53 | so a CDN URL left without `/max/` by stripping is cleaned to the stripped URL with `/max/800/` after the host |
| `MediumArticles.MediumUrlOnlyStripped` | src/components/MediumArticles.tsx:38-50 | a Medium URL that keeps a `/max/` segment, or has no host-and-slash, is cleaned to the stripped URL |
| `Strings.Utf16Length` | src/components/MediumArticles.tsx:104 | `length` counts at least one and at most two code units per character |
| `MediumArticles.Accepted` | src/components/MediumArticles.tsx:97-106 | no contract of its own: the candidate filter (non-empty, `https://`, an image extension or a Medium host, at most 500 code units); its effect is stated by `SelectImageIsFirstAccepted` and `CleanedAcceptedNonEmpty` |
| `MediumArticles.HasImageExtension` | src/components/MediumArticles.tsx:102 | no contract of its own: `/\.(jpg\|jpeg\|png\|gif\|webp)/i` as a case-insensitive substring test; used by `Accepted` |
| `Strings.LowerAll` | src/components/MediumArticles.tsx:102 | the `i` flag: the text keeps its length and each character is ASCII-lower-cased in place |
| `MediumArticles.Filter` | src/components/MediumArticles.tsx:97-108 | `.filter`: the result is no longer than the input and holds only input elements that pass the test; first-element and keep-all facts are `FilterFirst` and `FilterKeepsAll` |
| `MediumArticles.Map` | src/components/MediumArticles.tsx:107 | `.map`: same length, and each element is the function applied to the input element at that index |
| `MediumArticles.ValidImages` | src/components/MediumArticles.tsx:96-108 | the filtered, cleaned list is no longer than the candidates and holds no empty URL |
| `MediumArticles.SelectImage` | src/components/MediumArticles.tsx:110 | a selected image is a non-empty member of the valid list; which one is stated by `SelectImageIsFirstAccepted` |
| `MediumArticles.Sources` | src/components/MediumArticles.tsx:57-93 | the candidates end with the figure images then the img-tag images, in document order; the og:image, when found, comes first; at most two candidates precede the scanned images |
| `MediumArticles.ExtractImageFromContent` | src/components/MediumArticles.tsx:55-115 | no contract of its own; its properties are stated by `SelectImageIsFirstAccepted` and `OgImageWins` |
| `MediumArticles.CleanedAcceptedNonEmpty` | src/components/MediumArticles.tsx:96-108 | the final non-empty filter removes nothing, because every accepted URL cleans to a non-empty one |
| `MediumArticles.SelectImageIsFirstAccepted` | src/components/MediumArticles.tsx:96-110 | there is a result exactly when some candidate passes the filter, and it is the cleaned form of the first one that does |
| `MediumArticles.OgImageWins` | src/components/MediumArticles.tsx:60-63 | an accepted og:image candidate is the result, whatever else the content holds |
| `MediumArticles.DescriptionWins` | src/components/MediumArticles.tsx:57-72 | without an accepted og:image, an accepted description image is the result, whatever the content's figures and img tags hold |
| `MediumArticles.ScannedImagesOtherwise` | src/components/MediumArticles.tsx:57-110 | with neither an accepted og:image nor an accepted description image, the choice is made over the figure images followed by the img-tag images |
| `MediumArticles.Polished` | src/components/MediumArticles.tsx:160-168 | a present thumbnail ends up neither empty nor a placeholder; the default image is kept as it is; a non-Medium URL is kept as it is |
| `MediumArticles.ThumbnailFor` | src/components/MediumArticles.tsx:138-168 | no item ends with a placeholder thumbnail; a real thumbnail is only polished; a placeholder takes the extracted image, polished, and becomes the default image when there is none |
| `MediumArticles.ExtractionOnlyForPlaceholders` | src/components/MediumArticles.tsx:152-158 | content and description are consulted only when the thumbnail is missing or a placeholder |
| `MediumArticles.OrEmpty` | src/components/MediumArticles.tsx:153 | no contract of its own: `article.content \|\| ''` and `article.description \|\| ''`; used by `ThumbnailFor` |
| `MediumArticles.IsPlaceholder` | src/components/MediumArticles.tsx:152 | no contract of its own: missing, empty, "null" or "undefined", the test of lines 152 and 166; used by `ThumbnailFor` and `Polished` |
| `MediumArticles.PolishedCleans` | src/components/MediumArticles.tsx:160-168 | a real thumbnail other than the default image is replaced by its cleaned URL, which is never a placeholder |
| `MediumArticles.CleanedNotPlaceholder` | src/components/MediumArticles.tsx:160-168 | cleaning a real thumbnail never gives "", "null" or "undefined", so the final fallback does not fire |
| `MediumArticles.ResolveThumbnail` | src/components/MediumArticles.tsx:138-168 | the step-by-step reassignments of `thumbnail` compute `ThumbnailFor` |
| `MediumArticles.ResolveItem` | src/components/MediumArticles.tsx:170-173 | the callback returns the item with only its thumbnail replaced by the resolved one |
| `MediumArticles.Processed` | src/components/MediumArticles.tsx:170-173 | no contract of its own: `{...article, thumbnail}` with the resolved thumbnail; stated by `ProcessedAllSpec` and computed by `ResolveItem` |
| `MediumArticles.Resolver` | src/components/MediumArticles.tsx:136-174 | no contract of its own: the `map` callback as a function value; used by `ProcessedAll` and `ProcessArticles` |
| `MediumArticles.ProcessedAll` | src/components/MediumArticles.tsx:136 | no contract of its own: `data.items.map` of the callback; stated by `ProcessedAllSpec` and computed by `ProcessArticles` |
| `MediumArticles.ProcessedAllSpec` | src/components/MediumArticles.tsx:136-174 | the processed feed has the items in their order, each with its other fields kept and its thumbnail resolved, and none is left with a placeholder |
| `MediumArticles.ProcessArticles` | src/components/MediumArticles.tsx:136-174 | the item-by-item loop computes exactly the processed feed |
| `MediumArticles.StripTags` | src/components/MediumArticles.tsx:189 | the global tag strip never lengthens the text and introduces no new characters; what it removes and keeps is stated by `StripTagsAroundTag`, `TagFreeUnchanged` and `StripTagsLeavesNoTags` |
| `MediumArticles.TagAt` | src/components/MediumArticles.tsx:189 | no contract of its own: a match of `<[^>]+>` starting at the index; used by `StripTags` and `NoTags` |
| `MediumArticles.StripTagsLeavesNoTags` | src/components/MediumArticles.tsx:189 | no match of `<[^>]+>` survives the global replacement |
| `MediumArticles.TagFreeUnchanged` | src/components/MediumArticles.tsx:189 | text with no match of `<[^>]+>` comes through the tag strip unchanged |
| `MediumArticles.StripTagsAroundTag` | src/components/MediumArticles.tsx:189 | a tag after text with no `<` is deleted and that text kept, so `a<b>c` becomes `ac` |
| `MediumArticles.TruncateTextSpec` | src/components/MediumArticles.tsx:188-193 | a stripped text within the limit (in UTF-16 code units) is returned whole; a longer one keeps its longest prefix that fits in the limit (0 for a negative limit), which reaches the limit unless the next character is a surrogate pair, followed by "..."; the result has no tags |
| `MediumArticles.TruncateText` | src/components/MediumArticles.tsx:188-193 | no contract of its own; its properties are stated by `TruncateTextSpec` |
| `Strings.CutIndex` | src/components/MediumArticles.tsx:191 | the characters `substring(0, n)` keeps fit in `n` code units (none for a negative `n`), and one more would not fit |
| `Strings.CutIndexLongest` | src/components/MediumArticles.tsx:191 | no longer prefix fits in the limit |
| `Strings.CutIndexShortfall` | src/components/MediumArticles.tsx:191 | the kept prefix falls short of the limit by less than the next character's code units |
| `Strings.CutIndexInside` | src/components/MediumArticles.tsx:190-191 | a text longer than the limit is cut before its end |
| `Technologies.FirstOccurrences` | src/components/Technologies.tsx:53 | the reference list of first occurrences has no duplicates and the same elements as its input |
| `Technologies.InsertAll` | src/components/Technologies.tsx:53 | no contract of its own: in-order insertion into a `Set`; stated by `InsertAllIsFirstOccurrences` |
| `Technologies.CategoryColumn` | src/components/Technologies.tsx:53 | `technologies.map(tech => tech.category)`: one category per row, in table order |
| `Technologies.InsertAllIsFirstOccurrences` | src/components/Technologies.tsx:53 | inserting into a `Set` in order and listing it gives exactly the reference list of first occurrences |
| `Technologies.FirstOccurrencesOrdered` | src/components/Technologies.tsx:53 | the reference list is in order of first appearance |
| `Technologies.CategoriesSpec` | src/components/Technologies.tsx:53 | `categories` has no duplicates, holds exactly the categories used in the table, includes every technology's category, and lists them in order of first appearance |
| `Technologies.Categories` | src/components/Technologies.tsx:53 | no contract of its own; its properties are stated by `InsertAllIsFirstOccurrences` and `CategoriesSpec` |
| `Technologies.Group` | src/components/Technologies.tsx:132 | a category's group holds exactly the technologies of that category; order and multiplicity are stated by `GroupAppend` |
| `Technologies.GroupAppend` | src/components/Technologies.tsx:132 | the group of a concatenation is the concatenation of the groups, so a group keeps table order and multiplicity |
| `Technologies.GroupsPartition` | src/components/Technologies.tsx:131-132 | groups over distinct categories covering the table have sizes that add up to the table's length |
| `Technologies.ExactlyOneGroup` | src/components/Technologies.tsx:131-132 | every technology appears in the group of exactly one listed category |
| `Technologies.TablePartitioned` | src/components/Technologies.tsx:19-53 | the sections of the page together show each row of the table exactly once |
| `Technologies.ProficienciesArePercentages` | src/components/Technologies.tsx:19-41 | every proficiency lies between 0 and 100, so it is a valid bar width |
| `Projects.ModeFor` | src/components/Projects.tsx:54 | a square image is shown whole (contain); any other image fills the frame (cover) |
| `Projects.Usable` | src/components/Projects.tsx:53 | no contract of its own: a dimension that is present and non-zero; used by `HandleImageLoad` |
| `Projects.HandleImageLoad` | src/components/Projects.tsx:52-55 | a missing or zero dimension leaves the record unchanged; otherwise the card's key is set to contain exactly for a square image, and every other key keeps its mode |
| `Projects.ObjectFit` | src/components/Projects.tsx:116 | a card with no recorded mode is shown with cover |
| `Projects.HandleImageLoadIdempotent` | src/components/Projects.tsx:54 | a second identical report yields the same record |
| `Projects.HandleImageLoadCommutes` | src/components/Projects.tsx:54 | reports for two different cards commute |
| `Projects.ObjectFitAfterLoad` | src/components/Projects.tsx:52-54 | after a usable report the card is shown whole exactly when its image is square; after an unusable one its style is unchanged |
| `Projects.ObjectFitOtherCards` | src/components/Projects.tsx:54 | loading one card's image never changes another card's style |
| `ThemeToggle.NextTheme` | src/components/ThemeToggle.tsx:14 | dark becomes light, anything else becomes dark; the result is always dark or light |
| `ThemeToggle.InitialTheme` | src/components/ThemeToggle.tsx:8 | the stored theme when it is set and non-empty, dark otherwise |
| `ThemeToggle.ButtonWord` | src/components/ThemeToggle.tsx:41 | the button offers "Dark" exactly when the theme is light, "Light" otherwise |
| `ThemeToggle.ToggleTwice` | src/components/ThemeToggle.tsx:14 | two clicks from dark or from light come back to it |
| `ThemeToggle.ToggleSettles` | src/components/ThemeToggle.tsx:14 | from any stored value, one click reaches dark or light and then two more clicks come back to it |
| `ThemeToggle.ThemeSwitch.constructor` | src/components/ThemeToggle.tsx:5 | the first render holds dark and touches neither the document nor storage |
| `ThemeToggle.ThemeSwitch.Mount` | src/components/ThemeToggle.tsx:7-11 | mounting adopts the initial theme, writes it to the document attribute and only reads storage |
| `ThemeToggle.ThemeSwitch.Toggle` | src/components/ThemeToggle.tsx:13-18 | a click sets the state to the next theme, and the document attribute and the stored `theme` key to the same value; other storage keys are kept |
| `ThemeToggle.FirstVisitClick` | src/components/ThemeToggle.tsx:5-18 | on a first visit, mounting and then one click leave the state, the attribute and storage all light |

## Left out

- The network and file-system calls themselves (`fetch` to the mail provider and to rss2json, `fs.mkdir`, `fs.readFile`, `fs.writeFile`): each is an input outcome. The provider's error text and status are not modelled; a non-2xx answer is `false`.
- `ContactRoute.ContactEndpoint.Send`: a provider transport exception and a non-2xx answer are merged into one failed outcome. Both end the same way in the handler.
- JSON parsing and serialisation: the request body is `Body`, with string-or-absent fields. Non-string field values, such as numbers or objects, are not modelled. The store file is `StoreFile`, and the entries' JSON layout (pretty-printing) is not modelled.
- `new Date().toISOString()` is the input `Io.now`. `encodeURIComponent` is a function parameter of `BuildMailto`. `formatDate` is not modelled.
- Console logging throughout, and the debug logging of the first three feed items.
- Concurrent requests and the lost-update race on the store file: the model handles one request at a time.
- `MediumArticles.Sources`: the regular-expression scans of the article HTML are the `Scanners` parameter. Only the order in which their results are pushed is modelled.
- `MediumArticles.HasImageExtension` lower-cases ASCII letters only. This is exact for all text: without the `u` flag, a case-insensitive JavaScript regular expression never matches a non-ASCII character against an ASCII letter.
- `MediumArticles.ProcessArticles`: the surrounding fetch, the `data.items` shape check, the loading flag and the `setArticles` state update are not modelled.
- `Projects.HandleImageLoad`: a `NaN` dimension, which is also falsy, is not modelled; dimensions are integers or absent.
- The mouse-tilt animation of the project cards (floating point), `copyEmail` (clipboard and timer), and all rendering, styling and animation components.
- The icon field of each technology row.
- `MediumArticles.TruncateTextSpec`: when the limit falls between the two halves of a surrogate pair, `substring` keeps a lone high surrogate. Strings here are sequences of Unicode scalar values and cannot hold one, so the model keeps the text before that character, one code unit short of the limit.
- `MediumArticles.TruncateText`: the same lone-surrogate case; every other input, including text outside the Basic Multilingual Plane, is modelled in code units.
- `MediumArticles.Accepted`: the 500 limit counts UTF-16 code units, as the source does. The other tests (`startsWith`, `includes`) search whole characters, which agrees with a code-unit search on well-formed text.
- `ContactRoute.StoreFile`: a store array is assumed to hold entries only. A JSON array of other values (e.g. `[1, "x"]`) cannot be represented, although the `push` of `src/app/api/contact/route.ts:50` would append to it and the write would succeed just the same.
