# Voice dashboard core, modelled in Dafny

This project models the sequential logic of a browser dashboard for voice
cloning and text-to-speech (TTS). The rest of that dashboard is view code.

- **Voice catalog index and filter** (`VoiceCatalog`). The text-to-voice form
  derives the sorted, de-duplicated list of language codes offered by the
  loaded Google TTS voices. It also filters those voices by language and by
  gender, where `'ALL'` matches every gender.
- **Text-to-voice form** (`TextToVoice.TtsForm`). This class holds the
  component state. Its methods cover the voice-list fetch and its missing-key
  branch, the auto-fetch effect and the row count set when a file is chosen.
  `HandleGenerate` is the guard chain of the Generate button: it returns the
  alert that stops it, or the payload it logs.
- **Voice-clone form** (`VoiceClones.CreateCloneForm`). It covers the MIME
  whitelist and size ceiling on the chosen audio file, and the ordered checks
  of the submit button. A successful submit emits one create request and
  resets the form.
- **Settings page** (`Settings`). It masks a stored API key for display, and it
  saves and loads the two keys through the browser's key-value storage.
- **The `google-tts-voices` edge function** (`GoogleTtsVoices.Serve`). This is
  a pure function. Its inputs are the request method, the signed-in user, the
  credential lookup and the provider's answer. Its output is the response and
  the provider URL that was fetched, if any.

The platform's answers are inputs, not calls. That covers sign-in
(`Platform.User`), the credential table (`Platform.CredentialLookup`) and the
voice-list request (`TextToVoice.FetchResult`, `GoogleTtsVoices.ProviderReply`).
The browser's `localStorage` is modelled as `Platform.KeyValueStore`, a class
over a `map<string, string>`. `Strings` holds the JavaScript string operations
the code uses: the default `sort` order, `trim` (with the whitespace set of
ECMA-262), `toLowerCase`, `includes` and `slice(-n)`.

In four places the code does less than the page or its data suggest. The
model follows the code in each:
- Filtering by a language does not narrow the language list of the result
  to that language. A voice that lists two languages keeps both
  (pages/TextToVoicePage.tsx:75-82). `VoiceCatalog.FilteredLanguagesMayExceedSelection`
  shows such a case, and `VoiceCatalog.FilteredLanguagesWithinCatalog` states
  what does hold.
- `handleGenerate` does not look at `voiceError`
  (pages/TextToVoicePage.tsx:91-120). A Google voice chosen before a failed
  reload still passes Generate.
- The segment-size field carries `min="100" max="300"`, and the hint under it
  gives the same bounds (pages/TextToVoicePage.tsx:240-241). `handleGenerate`
  neither rejects nor clamps a value outside that range; it passes the raw
  value through.
- The page's fetch checks only the local key and then loads a fixed list
  (pages/TextToVoicePage.tsx:41-60). Missing-key, invalid-key and
  provider-error classification exists only in the edge function
  (supabase/functions/google-tts-voices/index.ts:44-90), which the page does
  not call.

## Model

| member | source | states |
|---|---|---|
| `VoiceCatalog.Matches` | pages/TextToVoicePage.tsx:78-80 | with `'ALL'` a voice matches iff it lists the language; with a specific gender iff it lists the language and has that gender |
| `VoiceCatalog.AllLanguageCodes` | pages/TextToVoicePage.tsx:71 | a code occurs in the flattened list iff some voice lists it |
| `VoiceCatalog.SortDistinct` | pages/TextToVoicePage.tsx:71-72 | the result is strictly sorted and holds exactly the strings of the input |
| `VoiceCatalog.AvailableLanguages` | pages/TextToVoicePage.tsx:70-73 | the language list is strictly sorted in the default sort order and holds exactly the codes some voice lists |
| `VoiceCatalog.AvailableLanguagesHasNoDuplicates` | pages/TextToVoicePage.tsx:71-72 | no language code appears twice in the list |
| `VoiceCatalog.AvailableLanguagesCanonical` | pages/TextToVoicePage.tsx:70-73 | two catalogs offering the same codes give the same list, whatever their order or repetitions |
| `VoiceCatalog.AvailableLanguagesOrderIndependent` | pages/TextToVoicePage.tsx:70-73 | reordering two parts of the catalog does not change the list |
| `VoiceCatalog.FilterVoices` | pages/TextToVoicePage.tsx:77-81 | the filter keeps an order-preserving subsequence, only matching voices, and every matching voice as often as it occurs |
| `VoiceCatalog.FilteredVoices` | pages/TextToVoicePage.tsx:75-82 | the result is an order-preserving subsequence of the catalog; a voice is kept iff it is in the catalog and matches; matching voices keep their multiplicity; every kept voice lists the language; a specific gender filter keeps only that gender; with `'ALL'` a voice is kept iff it lists the language |
| `VoiceCatalog.FilteredVoicesOfEmptyCatalog` | pages/TextToVoicePage.tsx:70-82 | an empty catalog gives an empty filtered list and an empty language list |
| `VoiceCatalog.FilteredVoicesIdempotent` | pages/TextToVoicePage.tsx:75-82 | filtering the filtered list again with the same settings changes nothing |
| `VoiceCatalog.FilterVoicesIdempotent` | pages/TextToVoicePage.tsx:77-81 | the filtering step, applied twice, equals applying it once |
| `VoiceCatalog.FilteredLanguagesWithinCatalog` | pages/TextToVoicePage.tsx:70-82 | every language of the filtered voices is offered by the catalog, and a non-empty filtered list offers the selected language |
| `VoiceCatalog.FilteredLanguagesMayExceedSelection` | pages/TextToVoicePage.tsx:75-82 | with voices a (en-US, male) and b (en-US and en-GB, female), filtering on en-US and female gives [b], whose languages include en-GB |
| `VoiceCatalog.SubsequenceMembers` | pages/TextToVoicePage.tsx:77 | an element of a subsequence is an element of the sequence |
| `Strings.LexLess` | pages/TextToVoicePage.tsx:72 | a sorts before b iff, at the first position where they differ, a has the smaller character, or a is a proper prefix of b |
| `Strings.LexLessIrreflexive` | pages/TextToVoicePage.tsx:72 | no string sorts before itself |
| `Strings.LexLessTransitive` | pages/TextToVoicePage.tsx:72 | the sort order is transitive |
| `Strings.LexLessTotal` | pages/TextToVoicePage.tsx:72 | of two different strings, one sorts before the other |
| `Strings.LexLessAsymmetric` | pages/TextToVoicePage.tsx:72 | if a sorts before b, then b does not sort before a |
| `Strings.StrictlySortedHasNoDuplicates` | pages/TextToVoicePage.tsx:71-72 | a strictly sorted list has no repeated element |
| `Strings.StrictlySortedUnique` | pages/TextToVoicePage.tsx:71-72 | two strictly sorted lists with the same elements are equal |
| `Strings.TrimStart` | pages/TextToVoicePage.tsx:43 | the result is a suffix of the input, only whitespace was removed, and it does not start with whitespace |
| `Strings.TrimEnd` | pages/TextToVoicePage.tsx:43 | the result is a prefix of the input, only whitespace was removed, and it does not end with whitespace |
| `Strings.Trim` | pages/TextToVoicePage.tsx:43 | the result is a slice of the input with only whitespace on either side of it, and it neither starts nor ends with whitespace |
| `Strings.TrimEmptyIffBlank` | pages/TextToVoicePage.tsx:43 | `trim()` gives `''` iff every character is whitespace |
| `TextToVoice.FetchKeyUsable` | pages/TextToVoicePage.tsx:42-43 | the fetch accepts a stored key iff it is present and not all whitespace |
| `TextToVoice.GenerateKeyPresent` | pages/TextToVoicePage.tsx:93-94 | Generate accepts a stored key iff it is present and not `''` |
| `TextToVoice.KeyChecksDiffer` | pages/TextToVoicePage.tsx:42-97 | a key the fetch accepts also passes Generate; the two checks differ exactly on non-empty, whitespace-only keys |
| `TextToVoice.TtsForm.constructor` | pages/TextToVoicePage.tsx:24-39 | the form starts with the initial state values |
| `TextToVoice.TtsForm.ShouldAutoFetch` | pages/TextToVoicePage.tsx:64 | never with the clone provider; always with Google and no voices loaded; with Google and voices loaded, iff a non-empty error is shown |
| `TextToVoice.TtsForm.BeginFetchGoogleVoices` | pages/TextToVoicePage.tsx:41-50 | with a missing or blank key, the fetch shows the missing-key error, clears the voices and never enters the loading state; otherwise it enters the loading state and clears the error; no other field changes |
| `TextToVoice.TtsForm.CompleteFetchGoogleVoices` | pages/TextToVoicePage.tsx:52-59 | after the awaited call, loading is off in every case; success stores the voices, failure sets the load error and keeps the voices |
| `TextToVoice.TtsForm.FetchGoogleVoices` | pages/TextToVoicePage.tsx:41-60 | the whole fetch: a missing key gives the error state without loading; with a key, loading ends off and the voices or the load error are set |
| `TextToVoice.TtsForm.AutoFetchEffect` | pages/TextToVoicePage.tsx:62-67 | the effect fetches iff the provider is Google and no voice is loaded or an error is set, and then ends in `fetchGoogleVoices`' state: the missing-key error with no voices and the loading flag untouched, or loading off with the fetched voices or the load error; otherwise nothing changes; a successful non-empty load turns the condition off |
| `TextToVoice.TtsForm.HandleFileSelect` | pages/TextToVoicePage.tsx:85-89 | the file is stored; the excel tab sets 50 rows, the txt tab 25, and the text tab leaves the count unchanged |
| `TextToVoice.TtsForm.Payload` | pages/TextToVoicePage.tsx:112-119 | the payload carries the provider, tab, clone id, Google voice, language and raw segment size from the state |
| `TextToVoice.TtsForm.HandleGenerate` | pages/TextToVoicePage.tsx:91-120 | the five checks run in order (Google without key, text tab without text, file tab without file, clone without id, Google without voice) and the first failure gives its alert; the payload is emitted iff all pass |
| `TextToVoice.EmptyTextAlwaysRejected` | pages/TextToVoicePage.tsx:100 | the text tab with empty text is rejected whatever the other fields hold |
| `TextToVoice.AcceptedMeansComplete` | pages/TextToVoicePage.tsx:91-110 | an accepted Generate has its text or file, its clone id or Google voice, and a non-empty key for Google |
| `TextToVoice.SegmentSizeNotClamped` | pages/TextToVoicePage.tsx:118 | the emitted segment size equals the state's, whatever its value |
| `TextToVoice.BlankKeyPassesGenerateOnly` | pages/TextToVoicePage.tsx:42-97 | a key of one space is refused by the fetch but lets Generate through |
| `VoiceClones.FileRejection` | pages/VoiceClonesPage.tsx:39-47 | a file is accepted iff its type is on the whitelist and its size is at most 50 MiB; a bad type gives the format error, an allowed type that is too large gives the size error |
| `VoiceClones.SizeCeilingIsInclusive` | pages/VoiceClonesPage.tsx:44 | 52,428,800 bytes is accepted and 52,428,801 bytes is refused |
| `VoiceClones.FormatCheckedBeforeSize` | pages/VoiceClonesPage.tsx:40-46 | a file failing both checks gets the format error |
| `VoiceClones.CreateCloneForm.HandleFileSelect` | pages/VoiceClonesPage.tsx:36-51 | the error is cleared first; an accepted file is stored; a rejected file sets the error and leaves the earlier file in place |
| `Platform.HasApiKey` | pages/VoiceClonesPage.tsx:71 | a lookup yields a key iff it is not a DB error, not a missing row, and its `api_key` is neither null nor `''` |
| `VoiceClones.SubmitRejection` | pages/VoiceClonesPage.tsx:57-81 | no user gives the sign-in error; then a DB error, a missing row or an empty key gives the missing-key error; then an empty name or no file gives the missing-fields error; no message iff all three hold |
| `VoiceClones.SubmitRejectionsAreNonEmpty` | pages/VoiceClonesPage.tsx:58-81 | every refusal has a non-empty message |
| `VoiceClones.CreateCloneForm.constructor` | pages/VoiceClonesPage.tsx:30-34 | the form starts empty, without error, not loading |
| `VoiceClones.CreateCloneForm.HandleSubmit` | pages/VoiceClonesPage.tsx:53-89 | every refusal ends with loading off, a non-empty error, the form unchanged and no create call; success appends one create call with (name, description, file), then clears name and description, drops the file and turns loading off |
| `Settings.GetDisplayKey` | pages/SettingsPage.tsx:22-25 | the empty key shows 'Chưa thiết lập'; any other key shows the 15-character mask followed by its last min(4, length) characters |
| `Settings.DisplayKeyRevealsAtMostFour` | pages/SettingsPage.tsx:24 | the display is at most 19 characters; a key of four characters or fewer is shown whole after the mask, and a longer key shows only its last four |
| `Settings.DisplayKeyDistinguishesUnset` | pages/SettingsPage.tsx:22-25 | a non-empty key is never displayed as unset |
| `Settings.DisplayKeyDependsOnTailOnly` | pages/SettingsPage.tsx:24 | keys with the same last four characters display alike |
| `Settings.SettingsPage.constructor` | pages/SettingsPage.tsx:4-6 | both keys and the message start empty |
| `Platform.KeyValueStore.GetItem` | pages/SettingsPage.tsx:9-10 | the stored value for a present key, null for an absent one |
| `Platform.KeyValueStore.SetItem` | pages/SettingsPage.tsx:16-17 | the key then reads back the value written, and every other key reads as before |
| `Strings.SliceLast` | pages/SettingsPage.tsx:24 | the result is the suffix of the input of length min(n, length) |
| `Settings.SettingsPage.LoadSavedKeys` | pages/SettingsPage.tsx:8-13 | each key is read from its fixed storage key, and an absent key becomes '' |
| `Settings.SettingsPage.HandleSave` | pages/SettingsPage.tsx:15-20 | both fixed keys then read back the saved values, no other storage key changes, and the success message is set |
| `Settings.SaveThenReload` | pages/SettingsPage.tsx:8-20 | a page opened after a save loads exactly the saved keys |
| `Strings.Contains` | supabase/functions/google-tts-voices/index.ts:71 | `includes` holds iff the substring occurs at some index |
| `Strings.ToLowerChar` | supabase/functions/google-tts-voices/index.ts:71 | an ASCII capital becomes its small letter, every other character is kept; the result is never an ASCII capital, and it is a small letter iff the input was an ASCII letter |
| `Strings.ToLower` | supabase/functions/google-tts-voices/index.ts:71 | the result has the input's length, lower-cases each character in place and holds no ASCII capital |
| `Strings.ToLowerIdempotent` | supabase/functions/google-tts-voices/index.ts:71 | lower-casing twice equals lower-casing once |
| `GoogleTtsVoices.SaysKeyInvalid` | supabase/functions/google-tts-voices/index.ts:71 | a message names an invalid key iff "api key not valid" occurs in it at some index, ignoring ASCII case |
| `GoogleTtsVoices.ProviderErrorMessage` | supabase/functions/google-tts-voices/index.ts:69 | the provider's non-empty `error.message` is used, otherwise "Google API Error: " followed by the status text |
| `GoogleTtsVoices.ClassifyReply` | supabase/functions/google-tts-voices/index.ts:66-90 | a thrown `fetch` or `json()` gives 500 with the error's message; an ok answer gives 200 passing the body through; a failed answer gives 400 invalid-key if its lower-cased message contains "api key not valid", else 500 with that message |
| `GoogleTtsVoices.Serve` | supabase/functions/google-tts-voices/index.ts:21-91 | OPTIONS gives 'ok' with the CORS headers before anything else; no user gives 401; a DB error, missing row or empty key gives 400 key-not-found with no provider call; otherwise the stored key's URL is fetched and the answer is classified |
| `GoogleTtsVoices.ErrorResponse` | supabase/functions/google-tts-voices/index.ts:38-41 | a JSON error response has the given status and error, and the CORS plus JSON content-type headers |
| `GoogleTtsVoices.EveryResponseHasCorsHeaders` | supabase/functions/google-tts-voices/index.ts:23-90 | every response carries both CORS headers |
| `GoogleTtsVoices.StatusIsOneOfFour` | supabase/functions/google-tts-voices/index.ts:21-91 | the status is always 200, 400, 401 or 500 |
| `GoogleTtsVoices.NoProviderCallWithoutKey` | supabase/functions/google-tts-voices/index.ts:23-65 | for OPTIONS, no user or no usable key, nothing is fetched and the response does not depend on the provider |
| `GoogleTtsVoices.PreflightIgnoresEverythingElse` | supabase/functions/google-tts-voices/index.ts:23-25 | an OPTIONS answer does not depend on sign-in or the credential lookup |
| `GoogleTtsVoices.SuccessIff` | supabase/functions/google-tts-voices/index.ts:80-84 | outside OPTIONS, the status is 200 iff a signed-in user's stored key got an ok answer whose body parses; the body then passes through unchanged |
| `GoogleTtsVoices.ProviderFailureClassified` | supabase/functions/google-tts-voices/index.ts:68-90 | a failed answer gives 400 iff its message names an invalid key, and otherwise 500 carrying the message |
| `GoogleTtsVoices.CapitalisedMarkerSaysKeyInvalid` | supabase/functions/google-tts-voices/index.ts:71 | a message starting "API key not valid" names an invalid key, whatever follows |
| `GoogleTtsVoices.GoogleInvalidKeyMessageRecognised` | supabase/functions/google-tts-voices/index.ts:68-76 | Google's invalid-key message gives the 400 invalid-key response, not a 500 |

## Left out

- Rendering: every piece of JSX, `TtsHistory`, `VoiceCloneList`,
  `UserStatsHeader`, the tab buttons and the `toLocaleString` formatting. It
  is presentation only.
- `components/Sidebar.tsx`, `components/FileUploader.tsx`, `App.tsx` and
  `supabase/client.ts`. They hold navigation, drag-and-drop event wiring and
  client configuration, with no logic to state.
- `UserProfile` from `types.ts`. No core operation reads it.
- Supabase sign-in and table queries, `fetch`, `response.json()`, `alert` and
  `console.log`. Their results are inputs, and an alert is the `Reject`
  message that `HandleGenerate` returns.
- The fetch's simulated delay and its fixed mock voice list. The settled
  answer is the input `FetchResult`; the source always loads the mock list.
- `setTimeout` message clearing on the settings page. It is timing, not
  sequential logic.
- The order of overlapping fetches: the stale-response race and React
  re-running effects when their dependencies change. `AutoFetchEffect`
  models one run of the effect.
- The loading flag while `handleSubmit` awaits. The model gives the state
  after the handler finishes. The voice fetch is split at its `await`, so its
  loading state is visible there.
- Exceptions from `createClient` or `auth.getUser`, and a non-string
  `error.message`, in the edge function. These go to the generic 500 branch,
  which the model reaches only through a thrown `fetch` or `json()` (the
  `Threw` body, which covers a network failure as well as a body that is not
  JSON) or a failed answer.
- The response headers that the runtime adds itself. `Response.headers` is
  the dictionary the handler passes; the runtime's
  `Content-Type: text/plain;charset=UTF-8` on the preflight `'ok'` answer is
  not in it.
- The audio duration bound of 11 to 40 seconds. The source only displays it
  and never checks it.
- `GoogleTtsVoices.SaysKeyInvalid`: it does not model `toLowerCase` outside
  ASCII. JavaScript also folds letters such as the Kelvin sign to ASCII, so a
  message spelling "key" with that sign is a 400 in the source but a 500 in
  the model.
- `Strings.LexLess`: it does not model UTF-16 code units. It compares Unicode
  scalar values, which gives the same order unless a string holds characters
  outside the Basic Multilingual Plane. For the same reason,
  `Settings.GetDisplayKey` can differ from `slice(-4)` on such characters.
- `TextToVoice.TtsForm.HandleGenerate`: it does not model a `NaN` segment
  size. `parseInt` of an empty field gives `NaN`, and it is modelled as an
  `int`.
