/**
 * The backend's request handlers over its persisted state: the journal
 * file, the voice-memory metadata file and the set of encrypted audio
 * files. The clock, fresh identifiers and the language model's answer are
 * parameters of the handlers.
 */
module Backend {
  import opened Wrappers
  import opened Text
  import opened Crisis
  import opened Store
  import opened Gratitude
  import opened Counsel

  /** One helpline of the emergency payload (`labelText` is the JSON field `label`). */
  datatype Helpline = Helpline(labelText: string, number: string)

  const EmergencyText: string :=
    "I'm deeply concerned. You're not alone, Slow Drive. Would you like to talk to someone now?"
  const Helplines: seq<Helpline> := [
    Helpline("India Suicide Prevention", "9152987821"),
    Helpline("Call Captain", "8766023995"),
    Helpline("International Helpline", "+1-800-273-8255")
  ]
  const CalmingAudio: string := "https://www.soundhelix.com/examples/mp3/SoundHelix-Song-1.mp3"
  const EmptyMessageText: string := "Please enter a message."
  /** Where uploads, encrypted audio and temporary decrypted audio are kept. */
  const VoiceUploadsDir: string := "./voice_uploads/"

  /** What `POST /message` answers. */
  datatype MessageResponse =
    | Rejected(status: nat, response: string)
    | Emergency(response: string, numbers: seq<Helpline>, calmingAudio: string)
    | Counselled(response: string, summary: string, gratitudePrompt: bool)

  /** The status and error text of a failed request. */
  datatype HttpError = HttpError(status: nat, error: string)

  /** `!message || message.trim() === ""`: absent, empty or only white space. */
  predicate IsBlank(message: Option<string>)
    ensures IsBlank(message) <==> message.None? || AllSpace(message.value)
  {
    message.None? || Trim(message.value) == []
  }

  /** `context?.currentMood || 'unknown'`: an absent or empty mood is "unknown". */
  function MoodOrUnknown(currentMood: Option<string>): (mood: string)
    ensures mood != []
    ensures currentMood.Some? && currentMood.value != [] ==> mood == currentMood.value
    ensures currentMood.None? || currentMood.value == [] ==> mood == "unknown"
  {
    if currentMood.Some? && currentMood.value != [] then currentMood.value else "unknown"
  }

  /**
   * A crisis message is never blank: every phrase starts with the letter i,
   * so the validation at the top of the handler never intercepts one.
   */
  lemma CrisisMessageIsNotBlank(message: string)
    requires IsCrisis(message)
    ensures !IsBlank(Some(message))
  {
    CrisisIffPhraseOccurs(message);
    var i, k :| 0 <= i < |CrisisPhrases| && OccursAt(Lower(message), CrisisPhrases[i], k);
    PhrasesStartWithI(i);
    assert Lower(message)[k] == Lower(message)[k..k + |CrisisPhrases[i]|][0] == 'i';
    assert LowerChar(message[k]) == 'i';
    assert !IsSpace(message[k]);
  }

  /** The process's persisted state, as the handlers read and rewrite it. */
  class Server {
    /** The encrypted journal file. */
    var journal: StoredFile<JournalEntry>
    /** The encrypted voice-memory metadata file. */
    var voiceMemories: StoredFile<VoiceMemory>
    /** The identifiers `id` for which an encrypted audio file `<id>.enc` exists. */
    var audioFiles: set<string>

    /** The state found on disk at start-up. */
    constructor (journal: StoredFile<JournalEntry>, voiceMemories: StoredFile<VoiceMemory>, audioFiles: set<string>)
      ensures this.journal == journal && this.voiceMemories == voiceMemories && this.audioFiles == audioFiles
    {
      this.journal := journal;
      this.voiceMemories := voiceMemories;
      this.audioFiles := audioFiles;
    }

    /** Every voice memory the metadata lists has its encrypted audio file. */
    ghost predicate AudioBacked()
      reads this
    {
      forall i :: 0 <= i < |Recovered(voiceMemories)| ==> Recovered(voiceMemories)[i].id in audioFiles
    }

    /**
     * `appendJournal`: read the journal, treating a missing, empty or
     * undecodable file as empty, push the entry and rewrite the file.
     */
    method AppendJournal(entry: JournalEntry)
      modifies this`journal
      ensures journal == Appended(old(journal), entry)
    {
      var entries := Recovered(journal);
      entries := entries + [entry];
      journal := Parsed(entries);
    }

    /** `GET /journal`: the stored entries, or a 500 error when the file does not decode. */
    method ReadJournal() returns (r: Result<seq<JournalEntry>, HttpError>)
      ensures r.Failure? <==> journal.Corrupt?
      ensures r.Failure? ==> r.error == HttpError(500, "Failed to read journal.")
      ensures journal.Parsed? ==> r == Success(journal.items)
      ensures journal.Missing? || journal.Empty? ==> r == Success([])
    {
      match ReadStrict(journal)
      case Success(entries) => r := Success(entries);
      case Failure(_) => r := Failure(HttpError(500, "Failed to read journal."));
    }

    /**
     * `POST /message`. A blank message is refused with 400 and nothing is
     * written. A crisis message is journalled and answered with the fixed
     * emergency payload, without the language model. Any other message is
     * answered from the model's `answer` (`None` when there is no model or
     * the call failed), journalled as a session, and the gratitude prompt is
     * decided on the journal as it was before this entry.
     */
    method HandleMessage(message: Option<string>, currentMood: Option<string>, answer: Option<string>, now: int)
      returns (r: MessageResponse)
      modifies this`journal
      ensures IsBlank(message) ==>
        r == Rejected(400, EmptyMessageText) && journal == old(journal)
      ensures !IsBlank(message) && IsCrisis(message.value) ==>
        && r == Emergency(EmergencyText, Helplines, CalmingAudio)
        && journal == Appended(old(journal),
             JournalEntry(now, "Crisis detected", message.value, MoodOrUnknown(currentMood), CrisisEntry))
      ensures !IsBlank(message) && !IsCrisis(message.value) ==>
        && r == Counselled(CounselFor(answer).reply, CounselFor(answer).summary,
                           ShouldPromptGratitude(Recovered(old(journal)), now))
        && journal == Appended(old(journal),
             JournalEntry(now, CounselFor(answer).summary, message.value, MoodOrUnknown(currentMood), Session))
    {
      if message.None? || Trim(message.value) == [] {
        return Rejected(400, EmptyMessageText);
      }
      var text := message.value;

      if IsCrisis(text) {
        AppendJournal(JournalEntry(now, "Crisis detected", text, MoodOrUnknown(currentMood), CrisisEntry));
        return Emergency(EmergencyText, Helplines, CalmingAudio);
      }

      var aiResponse := "";
      var summary := "";
      var gratitudePrompt := false;
      match answer {
        case Some(aiText) =>
          var split := SplitSummary(aiText);
          aiResponse := split.reply;
          summary := split.summary;
        case None =>
          aiResponse := FallbackReply;
          summary := FallbackSummary;
      }

      var before := Recovered(journal);
      AppendJournal(JournalEntry(now, summary, text, MoodOrUnknown(currentMood), Session));
      gratitudePrompt := ShouldPromptGratitude(before, now);
      return Counselled(aiResponse, summary, gratitudePrompt);
    }

    /**
     * `POST /voice-memories`: without an uploaded file, 400 and nothing
     * changes; otherwise the audio is stored as `<id>.enc` and a metadata
     * record `{id, date, label}` is appended, the label defaulting to "".
     */
    method UploadVoiceMemory(uploaded: bool, id: string, now: int, labelField: Option<string>)
      returns (r: Result<bool, HttpError>)
      modifies this`voiceMemories, this`audioFiles
      ensures !uploaded ==>
        r == Failure(HttpError(400, "No file uploaded"))
        && voiceMemories == old(voiceMemories) && audioFiles == old(audioFiles)
      ensures uploaded ==>
        && r == Success(true)
        && audioFiles == old(audioFiles) + {id}
        && voiceMemories == Appended(old(voiceMemories), VoiceMemory(id, now, labelField.GetOr("")))
      ensures old(AudioBacked()) ==> AudioBacked()
    {
      if !uploaded {
        return Failure(HttpError(400, "No file uploaded"));
      }
      var labelText := labelField.GetOr("");
      audioFiles := audioFiles + {id};
      var meta := Recovered(voiceMemories);
      meta := meta + [VoiceMemory(id, now, labelText)];
      voiceMemories := Parsed(meta);
      return Success(true);
    }

    /** `GET /voice-memories`: the metadata records, or a 500 error when the file does not decode. */
    method ListVoiceMemories() returns (r: Result<seq<VoiceMemory>, HttpError>)
      ensures r.Failure? <==> voiceMemories.Corrupt?
      ensures r.Failure? ==> r.error == HttpError(500, "Failed to read voice memories.")
      ensures voiceMemories.Parsed? ==> r == Success(voiceMemories.items)
      ensures voiceMemories.Missing? || voiceMemories.Empty? ==> r == Success([])
    {
      match ReadStrict(voiceMemories)
      case Success(meta) => r := Success(meta);
      case Failure(_) => r := Failure(HttpError(500, "Failed to read voice memories."));
    }

    /**
     * `GET /voice-memories/:id`, up to the point where the audio is
     * decrypted: 404 when there is no `<id>.enc`, otherwise the path of the
     * temporary file the decrypted audio is written to and sent from.
     */
    method FetchVoiceMemory(id: string) returns (r: Result<string, HttpError>)
      ensures r.Failure? <==> id !in audioFiles
      ensures r.Failure? ==> r.error == HttpError(404, "Not found")
      ensures r.Success? ==> r.value == VoiceUploadsDir + id + "_tmp.webm"
      ensures AudioBacked() && (exists i :: 0 <= i < |Recovered(voiceMemories)| && Recovered(voiceMemories)[i].id == id) ==>
        r.Success?
    {
      if id !in audioFiles {
        return Failure(HttpError(404, "Not found"));
      }
      return Success(VoiceUploadsDir + id + "_tmp.webm");
    }
  }
}
