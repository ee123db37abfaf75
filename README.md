# vCard QR generator: a Dafny model

This project models the one component holding logic in the vCard QR
generator web app, `src/components/VCardQRGenerator.jsx`. The component
keeps a nine-field contact form. From that form it builds a vCard 3.0 text
block and shows the block as a live preview. It asks a remote QR service to
render the block as an image, keeps the rendered PNG as a data URL, and
saves that image under a filename derived from the contact's names.

The model has four modules, one per part of the component:

- `Text` (`text.dfy`) holds the string rewrites the component uses:
  - `address.replace(/\n/g, ", ")` is `FlattenNewlines`;
  - `replace(/\s+/g, "_")` is `CollapseWhitespace`;
  - `split`/`join` are the reference definitions that address flattening is proved against;
  - the whitespace rewrite has no such reference; its run rule (each maximal
    whitespace run becomes one `_`) is stated directly by `CollapseRun`.
- `VCard` (`vcard.dfy`) is the record builder. `Card` is a function that
  gives the card as a list of lines joined by line feeds. `GenerateVCard` is
  a method that extends a local string one `+=` at a time, as the component
  does. It is proved equal to `Card`.
- `CardProperties` (`card_properties.dfy`) proves what the builder promises:
  - presence gating of the optional lines and their fixed order;
  - the exact opening and closing text;
  - each property line appears once, or not at all;
  - the line count of the text.
- `Session` (`session.dfy`) holds the component's state (`formData`,
  `qrCodeDataURL`, `vcardPreview`) as a class. Each handler is a method:
  - `handleInputChange`;
  - the preview effect;
  - `generateQRCode`;
  - the image's `onload`/`onerror`;
  - `downloadQR`.

  The module also derives the download filename and builds the QR-service
  request URL.

The model follows the code on the points below:

- A field is present exactly when it is not the empty string. This is
  JavaScript truthiness, so a value made only of spaces counts as present.
  The code does not trim anything, so the model does not either.
- Lines end in `\n`, and the last line, `END:VCARD`, has no line ending.
- Nothing is escaped. Only the address is flattened, and the notes are
  copied over as they are.
- The `if (phone)` before the TEL line can never be false, because the
  guard above it has already returned.

## Model

| member | source | states |
|---|---|---|
| VCard.Ready | src/components/VCardQRGenerator.jsx:98-100 | the form is ready exactly when first name, last name and phone are all non-empty strings; nothing is trimmed |
| VCard.ReadyAfterEdit | src/components/VCardQRGenerator.jsx:98-100 | editing one of the six optional fields never changes readiness; editing a required field makes the form ready exactly when the new value and the other two required fields are non-empty |
| VCard.Card | src/components/VCardQRGenerator.jsx:85-121 | there is no card exactly when the form is not ready; otherwise the card is the lines of the record joined by line feeds |
| VCard.With | src/components/VCardQRGenerator.jsx:78-83 | the updated record has the new value in the named field and the old value in each of the eight others |
| VCard.SameFields | src/components/VCardQRGenerator.jsx:59-69 | two records that agree on all nine fields are equal, so the record is nothing more than its nine fields |
| VCard.Tag | src/components/VCardQRGenerator.jsx:104-116 | each property's name and parameters up to the colon: `FN:`, `N:`, `TEL;TYPE=CELL:`, `EMAIL:`, `ORG:`, `TITLE:`, `URL:`, `ADR;TYPE=WORK:`, `NOTE:` |
| VCard.Value | src/components/VCardQRGenerator.jsx:104-116 | each property's value, unescaped: `first last`, `last;first;;;`, the phone, email, company, title and website as typed, `;;` + flattened address + `;;;;`, and the notes as typed |
| VCard.Line | src/components/VCardQRGenerator.jsx:104-116 | a property line is its tag followed by its value, with no line ending |
| VCard.RequiredLineTexts | src/components/VCardQRGenerator.jsx:104-107 | the three required lines are `FN:` + first + ` ` + last, `N:` + last + `;` + first + `;;;`, and `TEL;TYPE=CELL:` + phone |
| VCard.OptionalLineTexts | src/components/VCardQRGenerator.jsx:108-116 | the six optional lines are `EMAIL:` + email, `ORG:` + company, `TITLE:` + title, `URL:` + website, `ADR;TYPE=WORK:;;` + the address with each line feed replaced by `, ` + `;;;;`, and `NOTE:` + notes |
| VCard.Emitted | src/components/VCardQRGenerator.jsx:108-116 | the optional properties whose field is non-empty, in the order EMAIL, ORG, TITLE, URL, ADR, NOTE |
| VCard.Header | src/components/VCardQRGenerator.jsx:102-107 | the five opening lines: `BEGIN:VCARD`, `VERSION:3.0`, then the FN, N and TEL lines |
| VCard.Lines | src/components/VCardQRGenerator.jsx:102-118 | every line of the card: the five opening lines, the lines of the emitted optional properties in order, then `END:VCARD` |
| VCard.LinesOfKeep | src/components/VCardQRGenerator.jsx:107-116 | a gated property contributes its single line when its field is non-empty, and nothing otherwise |
| VCard.AppendProperty | src/components/VCardQRGenerator.jsx:107-116 | one gated `+=` keeps the text equal to the lines so far, each followed by a line feed, and adds the property's line exactly when its field is non-empty |
| VCard.Finish | src/components/VCardQRGenerator.jsx:118-120 | appending `END:VCARD` to the text built so far gives exactly the card |
| VCard.GenerateVCard | src/components/VCardQRGenerator.jsx:85-121 | the result is null exactly when first name, last name or phone is the empty string; otherwise it is the card: the five fixed lines, the present optional lines in order, then `END:VCARD`, joined by line feeds |
| CardProperties.CardPrefix | src/components/VCardQRGenerator.jsx:102-107 | a ready card starts with `BEGIN:VCARD`, `VERSION:3.0`, `FN:first last`, `N:last;first;;;` and the TEL line, each ending in a line feed |
| CardProperties.CardSuffix | src/components/VCardQRGenerator.jsx:118-120 | a ready card ends with a line feed followed by `END:VCARD`, and its last character is `D`, not a line feed |
| CardProperties.EmittedIffPresent | src/components/VCardQRGenerator.jsx:107-116 | a property is among the emitted optional ones if and only if it is one of EMAIL, ORG, TITLE, URL, ADR, NOTE and its field is non-empty |
| CardProperties.EmittedByField | src/components/VCardQRGenerator.jsx:108-116 | EMAIL is emitted exactly when the email is non-empty, ORG when the company is, TITLE when the title is, URL when the website is, ADR when the address is, and NOTE when the notes are |
| CardProperties.EmittedInOrder | src/components/VCardQRGenerator.jsx:108-116 | the emitted optional properties are all optional and come in strictly increasing rank: EMAIL, ORG, TITLE, URL, ADR, NOTE |
| CardProperties.InOrderOnce | src/components/VCardQRGenerator.jsx:108-116 | a property list in strictly increasing rank holds each property at most once |
| CardProperties.LineTagged | src/components/VCardQRGenerator.jsx:104-116 | a property line starts with its own tag and with no other property's tag |
| CardProperties.CountLinesOf | src/components/VCardQRGenerator.jsx:107-116 | the number of lines carrying a tag equals the number of times that property occurs in the list |
| CardProperties.CountHeader | src/components/VCardQRGenerator.jsx:102-107 | among the five opening lines, FN, N and TEL each occur once, and no optional tag occurs |
| CardProperties.InOrderDistinct | src/components/VCardQRGenerator.jsx:108-116 | a property list in strictly increasing rank has as many distinct properties as entries |
| CardProperties.EmittedCount | src/components/VCardQRGenerator.jsx:107-116 | the number of emitted optional properties equals the number of optional properties whose field is non-empty |
| CardProperties.CountEmitted | src/components/VCardQRGenerator.jsx:108-116 | among the optional lines, a property's tag occurs once if it is optional and its field is non-empty, and not at all otherwise |
| CardProperties.LineOccurrences | src/components/VCardQRGenerator.jsx:102-118 | in the card's line list, FN, N and TEL each occur exactly once; each optional property occurs exactly once if its field is non-empty and not at all otherwise |
| CardProperties.LineSingle | src/components/VCardQRGenerator.jsx:104-116 | if no field except the address holds a line feed, then no property line holds one, because the address is flattened |
| CardProperties.LinesSingle | src/components/VCardQRGenerator.jsx:102-118 | under the same condition, no line of the card holds a line feed |
| CardProperties.CardSplitsIntoLines | src/components/VCardQRGenerator.jsx:102-118 | if no field except the address holds a line feed, splitting a ready card at line feeds gives back exactly its lines, a count of 5 + the number of non-empty optional fields + 1 |
| CardProperties.NotesVerbatim | src/components/VCardQRGenerator.jsx:112-116 | the ADR line never holds a line feed; the NOTE line is `NOTE:` followed by the notes exactly as typed, so it holds a line feed exactly when the notes do |
| Text.FlattenNewlines | src/components/VCardQRGenerator.jsx:113 | the flattened address holds no line feed, and its length is the original length plus one for each line feed |
| Text.FlattenNoNewline | src/components/VCardQRGenerator.jsx:113 | an address without line feeds is left unchanged |
| Text.FlattenIsSplitJoin | src/components/VCardQRGenerator.jsx:113 | flattening is the same as splitting at line feeds and joining the pieces with `, ` |
| Text.FlattenRecovers | src/components/VCardQRGenerator.jsx:113 | the pieces between line feeds contain no line feed; joined with line feeds they give back the original address, and joined with `, ` they give the flattened one, in the same order |
| Text.Split | src/components/VCardQRGenerator.jsx:113 | splitting gives one piece more than there are delimiters, and no piece contains the delimiter |
| Text.JoinSplit | src/components/VCardQRGenerator.jsx:113 | joining the pieces back with the delimiter gives the original text |
| Text.SplitJoin | src/components/VCardQRGenerator.jsx:102-118 | pieces free of the delimiter, once joined, split back into the same pieces |
| Text.IsWhitespace | src/components/VCardQRGenerator.jsx:180 | the `\s` class: the ECMAScript WhiteSpace and LineTerminator code points, listed by value |
| Text.AsciiWhitespace | src/components/VCardQRGenerator.jsx:180 | within ASCII, whitespace is exactly tab, line feed, vertical tab, form feed, carriage return and space, and `_` is not whitespace |
| Text.SkipWhitespace | src/components/VCardQRGenerator.jsx:180 | the rest after a whitespace run is no longer than the input and does not start with whitespace |
| Text.SkipWhitespaceDrops | src/components/VCardQRGenerator.jsx:180 | what is skipped is a prefix made only of whitespace, and what is left is the rest of the input unchanged |
| Text.SkipAllWhitespace | src/components/VCardQRGenerator.jsx:180 | a text made only of whitespace is skipped entirely |
| Text.CollapseWhitespace | src/components/VCardQRGenerator.jsx:179-182 | rewriting the whitespace runs never makes the text longer |
| Text.CollapseAfter | src/components/VCardQRGenerator.jsx:179-182 | if the first part is empty or does not end in whitespace, the rewrite of a concatenation is the rewrite of each part, concatenated |
| Text.CollapseLeadingRun | src/components/VCardQRGenerator.jsx:179-182 | a non-empty whitespace run at the start, followed by text that does not start with whitespace, becomes exactly one `_` |
| Text.CollapseRun | src/components/VCardQRGenerator.jsx:179-182 | a maximal whitespace run between two texts becomes exactly one `_`: `a + w + b` is rewritten to the rewrite of `a`, then `_`, then the rewrite of `b` |
| Text.CollapseRemovesWhitespace | src/components/VCardQRGenerator.jsx:179-182 | after the rewrite no whitespace character is left |
| Text.CollapseNoWhitespace | src/components/VCardQRGenerator.jsx:179-182 | text without whitespace is left unchanged |
| Text.CollapseIdempotent | src/components/VCardQRGenerator.jsx:179-182 | applying the rewrite a second time changes nothing |
| Text.CollapseAppend | src/components/VCardQRGenerator.jsx:179-182 | if the second part does not start with whitespace, the rewrite works on each part of a concatenation separately |
| Text.CollapseKeepsVisible | src/components/VCardQRGenerator.jsx:179-182 | the rewrite keeps every character other than whitespace and underscores, in order |
| Session.DownloadFilename | src/components/VCardQRGenerator.jsx:178-182 | the download filename is `first_last_contact_qr.png` with the whitespace rewrite applied; its properties are the rows below |
| Session.InnerSpaceFilename | src/components/VCardQRGenerator.jsx:178-182 | the names `Mary Jane` and `Smith` give the filename `Mary_Jane_Smith_contact_qr.png`: an inner space of a name becomes an underscore |
| Session.FilenameShape | src/components/VCardQRGenerator.jsx:178-182 | the download filename holds no whitespace and ends with `_contact_qr.png` |
| Session.FilenamePlain | src/components/VCardQRGenerator.jsx:178-182 | when neither name holds whitespace, the filename is `first_last_contact_qr.png` exactly |
| Session.FilenameStable | src/components/VCardQRGenerator.jsx:179-182 | rewriting the filename's whitespace runs again leaves it unchanged |
| Session.FilenameKeepsVisible | src/components/VCardQRGenerator.jsx:179-182 | the filename keeps every character of the names other than whitespace and underscores, in order |
| Session.QrServiceUrl | src/components/VCardQRGenerator.jsx:133-136 | the request URL is the fixed service prefix with size 300x300, then the encoded payload, then `&format=png&margin=10` |
| Session.QrServiceUrlRecovers | src/components/VCardQRGenerator.jsx:134-136 | the encoded payload is exactly the text between the fixed prefix and suffix of the URL |
| Session.QrServiceUrlInjective | src/components/VCardQRGenerator.jsx:134-136 | different payloads give different request URLs |
| Session.PngDataUrl | src/components/VCardQRGenerator.jsx:155 | a PNG data URL starts with `data:image/png;base64,` and is never empty |
| Session.PreviewText | src/components/VCardQRGenerator.jsx:191-197 | the preview text is the card text when there is one and otherwise the fixed placeholder `Fill in the form above to see the vCard data that will be encoded in the QR code.` |
| Session.PreviewShowsCard | src/components/VCardQRGenerator.jsx:191-197 | the preview is the card text when the form is ready and the fixed placeholder otherwise; it equals the placeholder exactly when the form is not ready |
| Session.Session.constructor | src/components/VCardQRGenerator.jsx:59-73 | the session starts with all nine fields empty, no image and an empty preview |
| Session.Session.Settled | src/components/VCardQRGenerator.jsx:191-197 | the preview agrees with the form: it is the card text when the form is ready and the placeholder otherwise |
| Session.Session.HandleInputChange | src/components/VCardQRGenerator.jsx:78-83 | the named field takes the new value, the other eight fields keep theirs, and the image and preview are unchanged |
| Session.Session.RefreshPreview | src/components/VCardQRGenerator.jsx:191-197 | the preview becomes the card text, falling back to the placeholder, so the preview agrees with the form again |
| Session.Session.GenerateQRCode | src/components/VCardQRGenerator.jsx:124-136 | on a form that is not ready nothing is requested; otherwise the card text is requested through the service URL of its encoding; the session state does not change |
| Session.Session.CompleteImageLoad | src/components/VCardQRGenerator.jsx:142-162 | a loaded image replaces the stored data URL with its PNG data URL; a failed load leaves the stored image as it was |
| Session.Session.DownloadQR | src/components/VCardQRGenerator.jsx:172-188 | download is refused exactly when no image is stored; otherwise the stored image is saved under the filename derived from the current names |
| Session.Session.LoadThenDownload | src/components/VCardQRGenerator.jsx:142-188 | after a successful load, download saves that image under the derived filename |
| Session.Session.FailThenDownload | src/components/VCardQRGenerator.jsx:159-176 | if no image has loaded yet, a failed load still leaves nothing to download |

## Left out

- The JSX layout, the styling and the `FormInput` presentational component. They are markup with no behaviour.
- The `showPreview` toggle. It is a display flag with no effect on any value the model computes.
- The remote QR service, `new Image()`, `crossOrigin`, and drawing on the canvas at 300x300. These are network and browser APIs.
  - A load becomes an `ImageEvent`: either the base64 text of the PNG or a failure.
  - `canvas.toDataURL` becomes `PngDataUrl` over that text.
- `encodeURIComponent` is a parameter of `GenerateQRCode`. It is a platform built-in, and the model fixes no definition for it. Its `URIError` on lone surrogates cannot arise here, because Dafny characters are Unicode scalar values.
- The `try`/`catch` around the request. Building the URL and the image element cannot throw in the model.
- `alert`, `console.error` and the anchor-click mechanics of the download. These are side-effecting I/O. The refusals appear only as the `MissingFields` and `NoImage` results.
- React's scheduling is not modelled:
  - the preview effect is the explicit method `RefreshPreview`, which the caller runs after `HandleInputChange`, as React does after each render that changes the form;
  - the session's `Settled` predicate says when the preview agrees with the form;
  - `CompleteImageLoad` accepts any load event at any time, since there is no pending-request state; so an image that loads after the form has changed, or out of order with a later request, is stored like any other, and no property ties a stored image to the request or card text it encodes.
- Session.Session.HandleInputChange: the field key is one of the nine form fields (`Field`), not an arbitrary property name. The form only ever passes those nine.
- Strings are sequences of Unicode scalar values, while JavaScript strings are UTF-16. Lengths in `FlattenNewlines`' contract count scalar values.
- The JavaScript `\s` class is written out by code point in `IsWhitespace`; there is no regular-expression engine.
- CardProperties.LineOccurrences: the count is over the card's line list, not over the lines of the text. A field value that holds a line feed adds text lines, because nothing is escaped. `CardSplitsIntoLines` ties the two together when only the address holds line feeds.
