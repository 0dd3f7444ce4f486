# KrishvaTech contact forms, modelled in Dafny

The KrishvaTech website is almost all presentation. The parts with rules and
observable outcomes are the two contact forms and the vision gallery's index.
This project models those parts and proves what they promise.

- **Single-page site, contact section** (`src/App.jsx`, `Contact`). The section
  holds a five-field form record and a `{sending, ok, msg}` status record. A
  submission uses exactly one channel, in this order:
  - the Formspree relay (a JSON POST of the form), when an id is configured;
  - a WhatsApp deep link `https://wa.me/<digits>?text=<encodeURIComponent(text)>`,
    when the configured number has any digits;
  - otherwise, a "no backend configured" message.

  The class `Contact.ContactForm` has these pieces:
  - `OnSubmit` runs the handler up to the awaited `fetch` and records the browser
    call it makes. `status.sending` stays set while the relay is awaited.
  - `OnRelayResponse` is the rest of the handler once the relay answers.
  - `ClickSubmit` is the button, which does nothing while it is disabled or while
    the browser's `required` or `type="email"` check fails.
  - `OnChange` is the per-field change handler.
- **Digit stripping, URI encoding and inquiry text** (modules `WhatsAppLink`,
  `UriComponent` and `Inquiry`):
  - The digit stripping is `replace(/[^0-9]/g, "")`.
  - `encodeURIComponent` follows ECMA-262 (UTF-8 octets escaped as `%XY`). A
    decoder is written beside it.
  - The inquiry text is laid out label by label.
- **Vision gallery** (`VisionGallery`). A timer advances the index `(p+1) % 4`,
  and each button jumps to its own scene.
- **Routed contact page** (`pages/contact.tsx`, module `ContactPage`):
  - The schema: name at least 2, message at least 10, company and service
    optional, email checked by the library.
  - The `isSubmitting` and `isSubmitted` flags.
  - The two-second timer that ends a submission and resets the values.
  - The "Send Another Message" button.

The model follows the code in these details:
- Lengths are not trimmed before the minimum-length checks.
- zod's `min` counts UTF-16 code units, so a character beyond U+FFFF counts twice.
- The status messages use the typographic apostrophe (U+2019) and ellipsis
  (U+2026).
- The "no backend" message is the full sentence from the code.
- On the single-page form, the only validation before submitting is the
  browser's check of the `required` and `type="email"` inputs.

## Model

| member | source | states |
|---|---|---|
| `UriComponent.Encode` | src/App.jsx:413 | The encoded text contains only characters `encodeURIComponent` leaves unescaped, plus `%` (`IsEncoded`). So it cannot end the `text` query parameter. It is never shorter than the input. |
| `UriComponent.DecodeEscapeOfUtf8` | src/App.jsx:413 | The escaped UTF-8 octets of any character, whatever follows them, read back as that character and span three characters per octet. |
| `UriComponent.DecodeEncode` | src/App.jsx:413 | Decoding the encoded text gives back the original string, for every string. |
| `WhatsAppLink.StripNonDigits` | src/App.jsx:410 | The stripped number contains only the digits 0-9 and is no longer than the configured value. |
| `WhatsAppLink.StripNonDigitsAppend` | src/App.jsx:410 | Stripping works character by character: it distributes over concatenation. |
| `WhatsAppLink.StripNonDigitsIsDigitsOf` | src/App.jsx:410 | The stripped number equals the digits of the configured value gathered from the last character back (`DigitsOf`): every digit kept once, in its original order, and nothing else. |
| `WhatsAppLink.StripNonDigitsKeepsDigits` | src/App.jsx:410 | A value that is already all digits is unchanged, so stripping twice is the same as stripping once. |
| `WhatsAppLink.StripNonDigitsIgnoresNonDigit` | src/App.jsx:410 | A non-digit written anywhere in the number (a space, `+`, a dash) makes no difference to the digits kept. |
| `WhatsAppLink.WhatsAppUrl` | src/App.jsx:413 | The link is `https://wa.me/`, the digits and `?text=`, followed only by characters `encodeURIComponent` leaves unescaped and `%`: the text's spaces, newlines, `&` and `#` are all escaped. |
| `WhatsAppLink.WhatsAppUrlRoundTrip` | src/App.jsx:413 | Parsing the wa.me link recovers exactly the destination digits and the decoded text. The parser refuses a text parameter that is not percent-encoded, so this also says the text was encoded. |
| `WhatsAppLink.UnencodedTextRefused` | src/App.jsx:413 | A link carrying the text without `encodeURIComponent` (any text with, say, a space or a newline) is not a valid deep link: the parser rejects it. |
| `Inquiry.Set` | src/App.jsx:393 | `onChange` gives the named field the new value and leaves every other field as it was. |
| `Inquiry.SetLaws` | src/App.jsx:393 | Writing a field's own value changes nothing. A second write to the same field overrides the first. |
| `Inquiry.InquiryText` | src/App.jsx:411 | The template literal: each field's fixed label followed by its value, Name, Email, Company, Phone, then a blank line and the message. Its layout is stated by the three lemmas below. |
| `Inquiry.InquiryTextLayout` | src/App.jsx:411 | Every field's value appears in the text verbatim, directly after that field's label ("Name: ", "Email: " and so on). |
| `Inquiry.NextLabelFollowsValue` | src/App.jsx:411 | The next field's label directly follows each value, so the fields come in the order Name, Email, Company, Phone, Message. |
| `Inquiry.MessageEndsText` | src/App.jsx:411 | The message is the last thing in the text; nothing follows it. |
| `Contact.OrEmpty` | src/App.jsx:398 | `v \|\| ""`: an unset setting reads as the empty string. |
| `Contact.SelectChannel` | src/App.jsx:398-418 | The relay is used if and only if the Formspree id is non-empty, at `https://formspree.io/f/<id>`. The deep link is used if and only if there is no id and the stripped number is non-empty. Its digits are the stripped number, and its text parameter is percent-encoded and decodes back to the inquiry text. |
| `Contact.Issued` | src/App.jsx:399-414 | A submission makes at most one browser call. It makes none when no channel is configured. The relay POST's body is the form record, and the deep link opens in `_blank`. |
| `Contact.StatusAfterSubmit` | src/App.jsx:396-418 | After the synchronous part, `sending` still holds only on the relay path. `ok` is true only for the deep link and false only when no channel is configured. |
| `Contact.StatusAfterRelay` | src/App.jsx:405-420 | Once the relay answers, `sending` is false, and `ok` is true exactly when the response was ok. |
| `Contact.BrowserAccepts` | src/App.jsx:433-436 | The browser fires `submit` only when the `required` name and email are non-empty and the `type="email"` input holds an e-mail address. |
| `Contact.ContactForm.SubmitEnabled` | src/App.jsx:450 | The button is disabled exactly while `status.sending`. |
| `Contact.ContactForm.constructor` | src/App.jsx:391-392 | The section mounts with all five fields empty, the status `{false, null, ""}`, and no browser calls. |
| `Contact.ContactForm.OnChange` | src/App.jsx:393 | Only the named field changes. The status and the browser calls are unchanged. |
| `Contact.ContactForm.OnSubmit` | src/App.jsx:394-418 | The form is left as it is. The status becomes the selected channel's status and the call log grows by that channel's single call, or by none. |
| `Contact.ContactForm.OnRelayResponse` | src/App.jsx:405-421 | An ok response gives "Thanks! We’ll get back within a day." and empty fields. A not-ok response or a thrown `fetch` gives "Couldn’t send. Please try again." and leaves the fields untouched. No further browser call is made. |
| `Contact.ContactForm.ClickSubmit` | src/App.jsx:431-450 | While `sending` (button disabled), or while the browser rejects an empty name or email or a malformed email, nothing changes. No second relay call is ever issued. Otherwise the effect is that of `OnSubmit`. |
| `Contact.RelaySubmission` | src/App.jsx:396-408 | A relay submission makes exactly one POST with the submitted form and ends with `sending` false. It clears the form on success and keeps it on failure. |
| `Contact.ChannelIgnoresNumberFormatting` | src/App.jsx:410-413 | How the number is written does not matter: inserting a non-digit anywhere in it leaves the channel and the link unchanged, so `+91 97266 40019` and `919726640019` give the same link. |
| `VisionGallery.NextIndex` | src/App.jsx:95 | The next index is always in range. It is one more than the current index, or 0 after the last scene. |
| `VisionGallery.AfterTicksIsRotation` | src/App.jsx:95 | From any index in range, k ticks give `(p + k) mod len`, so the timer visits every scene in turn. |
| `VisionGallery.Gallery.constructor` | src/App.jsx:94 | The gallery starts at scene 0. |
| `VisionGallery.Gallery.Tick` | src/App.jsx:95 | The interval callback keeps the index in `[0, scenes.length)` and moves it to the next scene. |
| `VisionGallery.Gallery.Choose` | src/App.jsx:114-115 | A scene button sets the index to that button's scene, which is always in range. |
| `ContactPage.Utf16Length` | pages/contact.tsx:13 | The length `min` measures is between the number of characters and twice that number. |
| `ContactPage.Utf16LengthOfBmp` | pages/contact.tsx:17 | For text within U+0000..U+FFFF, that length is the number of characters. |
| `ContactPage.Utf16LengthAppend` | pages/contact.tsx:13-17 | The length `min` measures is additive, so mixed text counts one unit per character up to U+FFFF and two per character beyond. |
| `ContactPage.MinLengthExamples` | pages/contact.tsx:13 | One character beyond U+FFFF already has length 2. Two spaces also have length 2, because nothing is trimmed. |
| `ContactPage.SchemaValid` | pages/contact.tsx:12-18 | The schema accepts the values when the name has length at least 2, the email passes the e-mail check and the message has length at least 10, whatever company and service hold. |
| `ContactPage.Errors` | pages/contact.tsx:12-18 | Name fails if and only if it is shorter than 2, email if and only if the e-mail check rejects it, message if and only if it is shorter than 10. Company and service never fail. Each failure carries the schema's own message. |
| `ContactPage.ErrorsEmptyIffValid` | pages/contact.tsx:12-18 | There are no errors exactly when the name, email and message rules all hold. The company and service values never affect validity. |
| `ContactPage.WithField` | pages/contact.tsx:140-200 | Each change handler sets its own field and leaves every other field as it was. |
| `ContactPage.Page.constructor` | pages/contact.tsx:61-67 | The page starts with both flags false and the default (all-empty) values. |
| `ContactPage.Page.SubmitEnabled` | pages/contact.tsx:121-210 | The form with its button is shown unless the success panel is, and the button is disabled while `isSubmitting`. |
| `ContactPage.Page.SetField` | pages/contact.tsx:140 | Only the values change, and only as `WithField` says. |
| `ContactPage.Page.OnSubmit` | pages/contact.tsx:69-72 | `isSubmitting` becomes true and the values are kept. |
| `ContactPage.Page.OnTimer` | pages/contact.tsx:73-77 | `isSubmitting` becomes false, `isSubmitted` becomes true, and the values become `defaultFormValues`. |
| `ContactPage.Page.SendAnother` | pages/contact.tsx:125 | Only `isSubmitted` changes, to false. The values and `isSubmitting` are kept. |
| `ContactPage.Page.ClickSubmit` | pages/contact.tsx:131-210 | While the button is disabled or hidden, nothing changes. Otherwise the schema's errors are returned, and the submission starts exactly when the schema accepts the values. |
| `ContactPage.SubmissionRound` | pages/contact.tsx:69-125 | A valid submission, then the timer, then "Send Another Message" leaves an empty form that can be submitted again. |

## Left out

- Real network and browser effects. `fetch` and `window.open` are recorded as
  `Effect` values, and the relay's answer is an input (`RelayResult`). The
  request's headers and the JSON text of the body are not modelled; the body is
  the form record itself.
- `import.meta.env`. The two settings are the `Config` passed to the form's
  constructor.
- The e-mail checks. zod's `email()` and the browser's `type="email"` check are
  both an `isEmail` parameter.
- `useForm` and `handleSubmit` from `components/Form` are not part of this model.
  `Page.ClickSubmit` assumes that they run the schema on the current values and
  call `onSubmit` only when it reports no errors.
- `console.log` of the submitted values.
- The 2000 ms `setTimeout` and the 4000 ms `setInterval` are events
  (`Page.OnTimer`, `Gallery.Tick`); their timing is not modelled.
- How `status.msg` and its colour are rendered, and what React does with state
  after the section unmounts.
- Lone UTF-16 surrogates. Strings here are sequences of Unicode scalar values.
  A lone surrogate in a field would make `encodeURIComponent` throw, which the
  catch would turn into "Couldn’t send. Please try again."; that path is not
  modelled.
- The presentational parts of the site: the particle and nebula canvases, the
  cursor glow, the voice-agent playback, the TechShowcase parallax, and the
  static pages and layout components.
