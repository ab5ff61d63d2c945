# Slow Drive backend: message policy and record stores

A Dafny model of the decision logic of the Slow Drive counselling backend
(`index.mjs`). The model covers these parts:

- **Crisis classifier** (`Crisis`). A message is a crisis message when its
  lower-cased form contains one of seven fixed phrases as a plain substring.
- **Gratitude scheduler** (`Gratitude`). It looks only at the newest journal
  entry. It prompts when the journal is empty, when that entry is at least
  seven whole days old, or when its mood was "sad" or "anxious".
- **Reply/summary split** (`Counsel`). The language model's text is cut at
  the marker `Summary:`. When there is no model or the call fails, fixed
  fallback texts are used.
- **Record stores** (`Store`). The journal and the voice-memory metadata are
  each one encrypted JSON-array file. A read finds one of four states:
  missing, empty, corrupt (does not decrypt or parse), or the decoded
  records. Appends recover silently to an empty collection. A direct read
  reports an error only for a corrupt file.
- **Request handlers** (`Backend.Server`). This class holds the journal file,
  the metadata file and the set of identifiers that have an encrypted audio
  file. Its methods model `appendJournal`, `POST /message`, `GET /journal`,
  `POST /voice-memories`, `GET /voice-memories` and the not-found decision
  of `GET /voice-memories/:id`.

Several things are inputs to the handlers. The clock is `now`, an integer in
milliseconds. The fresh uuid is `id`. The language model's answer is
`answer: Option<string>`, where `None` means there is no model or the call
threw. The message, mood and label fields of the request body are
`Option<string>`, where `None` means the field is absent.

Lower-casing is ASCII folding. `trim` removes exactly JavaScript's
white-space and line-terminator characters. `includes` and `split` are
modelled through a first-occurrence search, `Text.IndexFrom`.

## Model

| member | source | states |
|---|---|---|
| Text.Lower | index.mjs:87 | lower-casing keeps the length and folds every ASCII capital, leaving other characters alone |
| Text.LowerIdempotent | index.mjs:87 | lower-casing an already lower-cased message changes nothing |
| Text.Trim | index.mjs:109 | the trimmed text is the infix of the message that follows its leading white space, and only white space follows it; it is empty exactly when the message is all white space, and otherwise neither starts nor ends with white space |
| Text.IndexFrom | index.mjs:88 | the search returns an occurrence at or after the start, and no earlier position there holds one; absent means no occurrence at or after the start |
| Text.IndexOf | index.mjs:147 | `indexOf` returns the first position where the pattern occurs, and is absent exactly when it occurs nowhere |
| Text.Contains | index.mjs:88 | `includes` holds exactly when the phrase occurs at some position |
| Text.ContainsInContext | index.mjs:88 | a string that contains a phrase still contains it with any text added before and after |
| Text.NotContainsInfix | index.mjs:147-149 | an infix of a string without the phrase is without it too |
| Crisis.IsCrisis | index.mjs:86-89 | a message is a crisis message exactly when its lower-cased form contains one of the listed phrases |
| Crisis.AnyPhraseIn | index.mjs:88 | `some` over the phrases holds exactly when some listed phrase is contained |
| Crisis.CrisisIffPhraseOccurs | index.mjs:65-89 | a message is a crisis exactly when one of the seven phrases occurs at some position of its lower-cased form |
| Crisis.CrisisIgnoresCase | index.mjs:87 | classification gives the same answer for a message and its lower-cased form |
| Crisis.CrisisInContext | index.mjs:86-89 | surrounding text never hides a crisis phrase, because matching is by substring and not by whole words |
| Crisis.EachPhraseIsCrisis | index.mjs:65-89 | each listed phrase on its own is a crisis message |
| Crisis.CurlyApostropheMatches | index.mjs:67 | "I’m done with everything" (U+2019 apostrophe) is a crisis message |
| Crisis.StraightApostropheMisses | index.mjs:67 | "I'm done with everything" (straight apostrophe) is not a crisis message |
| Crisis.PhrasesStartWithI | index.mjs:65-73 | every listed phrase starts with the letter i |
| Crisis.PhrasesAreLowercase | index.mjs:65-73 | every listed phrase is already lower case, so lower-casing the message is enough to compare with it |
| Crisis.NoPhraseWithoutKeyLetters | index.mjs:65-73 | no phrase occurs in a text without the letters a, c, u and the typographic apostrophe |
| Store.Recovered | index.mjs:39-45 | the append path's read gives what a direct read gives where that succeeds, and no records for a corrupt file |
| Store.ReadStrict | index.mjs:235-245 | a direct read fails exactly when the file does not decode |
| Store.Appended | index.mjs:38-48 | after an append the file decodes and its last record is the appended one |
| Store.StrictReadAgreesWithRecovery | index.mjs:39-45 | where a direct read succeeds it returns what the append path recovers; where it fails, the append path starts from nothing |
| Store.AppendKeepsHistory | index.mjs:38-48 | appending to a decodable file keeps every old record in order and adds the new one at the end |
| Store.AppendRecovers | index.mjs:39-46 | appending to a missing, empty or corrupt file yields exactly the one new record |
| Store.CorruptThenAppend | index.mjs:38-48 | a corrupt journal fails a direct read, and after one append it reads back as exactly the new record |
| Store.AppendAllReadsBack | index.mjs:38-48 | any run of appends reads back as the recoverable old records followed by all appended records, in order |
| Gratitude.ShouldPromptGratitude | index.mjs:92-101 | prompts for an empty journal; otherwise exactly when the newest entry is at least 7 × 86400000 ms old or its mood is "sad" or "anxious" |
| Gratitude.ElapsedDays | index.mjs:97 | the whole days elapsed are the floor of the difference in milliseconds divided by 86400000 |
| Gratitude.IsToughMood | index.mjs:100 | only "sad" and "anxious" count, so neither an empty mood nor the default "unknown" ever does |
| Gratitude.OnlyLastEntryMatters | index.mjs:94 | entries before the newest one never change the decision |
| Gratitude.FutureEntryOnlyByMood | index.mjs:97-100 | a newest entry dated in the future never triggers the weekly rule; only its mood can |
| Gratitude.PostAppendDecisionIgnoresHistory | index.mjs:161-177 | deciding after appending this turn's entry would depend only on the current mood, which is why the handler decides on the journal read before the append |
| Gratitude.SchedulerExamples | index.mjs:92-101 | empty journal: prompt; 8-day-old happy entry: prompt; fresh happy entry: no prompt; fresh sad entry: prompt |
| Counsel.UpToMarker | index.mjs:147-149 | the summary section is a prefix of the text after the first marker, holds no marker, and is either all of that text or ends exactly where the next marker starts |
| Counsel.SplitSummary | index.mjs:147-150 | the summary is never empty; neither part contains the marker; text without a marker becomes the whole trimmed text plus "Session completed." |
| Counsel.SplitAtTwoMarkers | index.mjs:147-150 | for marker-free reply and summary, reply + marker + summary + marker + anything splits into the trimmed reply and the trimmed summary, or "Session completed." when the summary trims to nothing |
| Counsel.SplitAtSingleMarker | index.mjs:147-150 | for marker-free reply and summary, reply + marker + summary splits into the trimmed reply and the trimmed summary, or "Session completed." when the summary trims to nothing |
| Counsel.FirstMarkerAfter | index.mjs:147 | in reply + marker + rest, when the reply has no marker, the first marker is the one right after the reply |
| Counsel.CounselFor | index.mjs:142-158 | with no model or a failed call the answer is the fixed fallback reply and summary; otherwise it is the split of the model's text; the summary is never empty and neither part contains the marker |
| Backend.IsBlank | index.mjs:109 | a message is rejected exactly when it is absent or consists only of white space |
| Backend.CrisisMessageIsNotBlank | index.mjs:109-114 | a crisis message is never blank, so the validation never intercepts one |
| Backend.MoodOrUnknown | index.mjs:119 | an absent or empty mood becomes "unknown", and any other mood is kept |
| Backend.Server.AppendJournal | index.mjs:38-48 | the new journal file is the recovered old journal with the entry pushed |
| Backend.Server.ReadJournal | index.mjs:235-245 | a missing or empty file reads as no entries, a decoded file reads as its entries, and only a corrupt file gives a 500 error; the store is not changed |
| Backend.Server.HandleMessage | index.mjs:107-184 | a blank message gets 400 and the journal is unchanged; a crisis message appends one crisis entry and returns the fixed emergency payload, independent of the model's answer; any other message appends one session entry with the split summary, and the gratitude flag is decided on the journal as recovered before the append |
| Backend.Server.UploadVoiceMemory | index.mjs:187-206 | without a file, 400 and nothing changes; otherwise `<id>.enc` exists and the metadata is the recovered old list with `{id, date, label or ""}` pushed; every listed memory keeps its audio file |
| Backend.Server.ListVoiceMemories | index.mjs:209-219 | a missing or empty file lists nothing, a decoded file lists its records, and only a corrupt file gives a 500 error |
| Backend.Server.FetchVoiceMemory | index.mjs:222-226 | 404 exactly when there is no `<id>.enc`, otherwise the temporary file `./voice_uploads/<id>_tmp.webm`; every listed memory can be fetched while the metadata is backed by audio files |

## Left out

- Encryption: the AES-256-CBC calls with their fixed key and zero IV (index.mjs:21-37) are library code on bytes. The four file states stand for the outcome of decrypting and parsing, and a decodable file is assumed to round-trip.
- Audio contents: the stream encryption and decryption of audio (index.mjs:51-63), sending the decrypted file and deleting the temporary file (index.mjs:227-231) are asynchronous stream code. Only whether `<id>.enc` exists is modelled. The plaintext upload is deleted without waiting for encryption to finish (index.mjs:194); that ordering is not modelled.
- Decoded values that are not arrays: a file that decrypts to JSON that is not an array would make `push` throw. Only arrays are modelled, since this code only ever writes arrays.
- Write failures: a failing `writeFileSync` is not modelled. Neither are the resulting unhandled errors.
- Dates are integer milliseconds. ISO-8601 formatting and parsing are not modelled. Neither is an unparseable stored date, which would make `Math.floor` return NaN.
- `toLowerCase` is approximated by ASCII folding. Non-ASCII case mappings are not modelled, including those that change a string's length.
- Request fields that are JSON values other than strings are not modelled. For example, a numeric `message` makes `trim` throw.
- The Gemini chat: the prompt text, the chat history, the generation settings and the network call (index.mjs:104-105, 135-145) are an external call. The whole call is the parameter `answer`.
- Express plumbing is not modelled: routing, CORS, body parsing, multer, `res.json` and `app.listen`. Neither is the `/health` endpoint (index.mjs:248-250), which only reports whether an API key is set.
- Concurrent requests that race on the shared files are not modelled. The model is sequential.
- uuid generation is the parameter `id`. Its uniqueness is not assumed and not needed by any property.
