/** The records the pages exchange (types.ts), plus the two browser-side
    values the core reads: an optional value and a selected file. */
module Types {

  /** `T | null` and `T | undefined` in the pages. */
  datatype Option<+T> = None | Some(value: T) {
    function GetOr(default: T): T {
      match this
      case Some(v) => v
      case None => default
    }
  }

  /** The `ssmlGender` tag of a catalog voice. */
  datatype SsmlGender = Male | Female | Neutral

  /** `GoogleTtsVoice`: one entry of the cloud TTS voice catalog. */
  datatype GoogleTtsVoice = GoogleTtsVoice(
    name: string,
    languageCodes: seq<string>,
    ssmlGender: SsmlGender,
    naturalSampleRateHertz: int)

  /** `VoiceClone.status`. */
  datatype CloneStatus = Processing | Ready | Error

  /** `VoiceClone`: a user-owned cloned voice. */
  datatype VoiceClone = VoiceClone(
    id: string,
    name: string,
    description: Option<string>,
    createdAt: string,
    characterUsage: int,
    status: CloneStatus)

  /** `TtsSourceType`: where the text of a job came from. */
  datatype TtsSourceType = TextSource | TxtSource | ExcelSource

  /** `TtsJob.status`. */
  datatype JobStatus = JobProcessing | JobCompleted | JobFailed

  /** `TtsJob`: one past text-to-speech job. */
  datatype TtsJob = TtsJob(
    id: string,
    createdAt: string,
    voiceCloneName: string,
    sourceType: TtsSourceType,
    characterCount: int,
    rowCount: Option<int>,
    status: JobStatus,
    audioUrl: Option<string>)

  /** A browser `File`, reduced to the attributes the pages read:
      its name, its MIME `type` and its `size` in bytes. */
  datatype File = File(name: string, mimeType: string, size: nat)
}
