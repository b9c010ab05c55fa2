/** The text-to-voice form (`TtsForm`): its component state, the voice
    catalog fetch with its missing-key branch, the auto-fetch effect, the
    file selection rule and the guard chain of the Generate button. */
module TextToVoice {
  import opened Types
  import opened Strings
  import opened Platform
  import opened VoiceCatalog

  /** `InputTab`: where the text comes from. */
  datatype InputTab = TextTab | TxtTab | ExcelTab

  /** `TtsProvider`: which engine speaks. */
  datatype TtsProvider = CloneProvider | GoogleProvider

  const MissingKeyVoiceError: string :=
    "Vui lòng cấu hình Google Cloud API Key trong Cài đặt để tải danh sách giọng nói."
  const LoadFailedVoiceError: string :=
    "Không thể tải danh sách giọng nói. Vui lòng kiểm tra lại API Key."

  const MissingKeyAlert: string := "Vui lòng thiết lập API Key của Google/Gemini trong trang Cài đặt."
  const MissingTextAlert: string := "Vui lòng nhập text"
  const MissingFileAlert: string := "Vui lòng chọn file"
  const MissingCloneAlert: string := "Vui lòng chọn một voice clone"
  const MissingVoiceAlert: string := "Vui lòng chọn một giọng Google TTS"

  /** The placeholder row counts set when a file is chosen. */
  const ExcelRowCount: int := 50
  const TxtRowCount: int := 25

  /** The object logged when Generate is accepted. */
  datatype GeneratePayload = GeneratePayload(
    provider: TtsProvider,
    source: InputTab,
    cloneId: string,
    googleVoice: string,
    language: string,
    segmentSize: int)

  /** Either the alert shown and the handler returns early, or the payload. */
  datatype GenerateOutcome = Reject(alert: string) | Accept(payload: GeneratePayload)

  /** The settled result of the awaited voice-list request. */
  datatype FetchResult = Fetched(voices: seq<GoogleTtsVoice>) | FetchFailed

  /** The key check of `fetchGoogleVoices`: rejects null and blank keys. */
  predicate FetchKeyUsable(key: Option<string>)
    ensures FetchKeyUsable(key) <==> key.Some? && !IsBlank(key.value)
  {
    if key.Some? then TrimEmptyIffBlank(key.value); key.value != "" && Trim(key.value) != "" else false
  }

  /** The key check of `handleGenerate`: rejects only null and `''`. */
  predicate GenerateKeyPresent(key: Option<string>)
    ensures GenerateKeyPresent(key) <==> key.GetOr("") != ""
  {
    key.Some? && key.value != ""
  }

  /** A whitespace-only key is turned away by the fetch but let through by
      Generate: the two checks disagree exactly on blank non-empty keys. */
  lemma KeyChecksDiffer(key: Option<string>)
    ensures FetchKeyUsable(key) ==> GenerateKeyPresent(key)
    ensures GenerateKeyPresent(key) && !FetchKeyUsable(key) <==> key.Some? && key.value != "" && IsBlank(key.value)
  {
    if key.Some? {
      TrimEmptyIffBlank(key.value);
    }
  }

  class TtsForm {
    var inputTab: InputTab
    var ttsProvider: TtsProvider
    var text: string
    var selectedFile: Option<File>
    var selectedCloneId: string
    var language: string
    var segmentSize: int
    var rowCount: int
    var googleVoices: seq<GoogleTtsVoice>
    var isLoadingVoices: bool
    var voiceError: Option<string>
    var selectedLanguageFilter: string
    var selectedGenderFilter: GenderFilter
    var selectedGoogleVoice: string

    /** The initial `useState` values. */
    constructor ()
      ensures inputTab == ExcelTab && ttsProvider == GoogleProvider
      ensures text == "" && selectedFile == None && selectedCloneId == ""
      ensures language == "Vietnamese" && segmentSize == 300 && rowCount == 0
      ensures googleVoices == [] && !isLoadingVoices && voiceError == None
      ensures selectedLanguageFilter == "vi-VN" && selectedGenderFilter == AllGenders
      ensures selectedGoogleVoice == ""
    {
      inputTab := ExcelTab;
      ttsProvider := GoogleProvider;
      text := "";
      selectedFile := None;
      selectedCloneId := "";
      language := "Vietnamese";
      segmentSize := 300;
      rowCount := 0;
      googleVoices := [];
      isLoadingVoices := false;
      voiceError := None;
      selectedLanguageFilter := "vi-VN";
      selectedGenderFilter := AllGenders;
      selectedGoogleVoice := "";
    }

    /** The fields the catalog fetch never touches keep their values. */
    twostate predicate FormFieldsUnchanged()
      reads this
    {
      && inputTab == old(inputTab) && ttsProvider == old(ttsProvider)
      && text == old(text) && selectedFile == old(selectedFile)
      && selectedCloneId == old(selectedCloneId) && language == old(language)
      && segmentSize == old(segmentSize) && rowCount == old(rowCount)
      && selectedLanguageFilter == old(selectedLanguageFilter)
      && selectedGenderFilter == old(selectedGenderFilter)
      && selectedGoogleVoice == old(selectedGoogleVoice)
    }

    /** The condition of the auto-fetch effect: the Google provider is
        selected and either no voice is loaded or an error is shown. */
    predicate ShouldAutoFetch()
      reads this
      ensures ttsProvider == CloneProvider ==> !ShouldAutoFetch()
      ensures ttsProvider == GoogleProvider && googleVoices == [] ==> ShouldAutoFetch()
      ensures ttsProvider == GoogleProvider && googleVoices != [] ==> (ShouldAutoFetch() <==> voiceError.GetOr("") != "")
    {
      ttsProvider == GoogleProvider
      && (|googleVoices| == 0 || (voiceError.Some? && voiceError.value != ""))
    }

    /** `fetchGoogleVoices` up to its `await`: the key check, then the
        loading state. Returns whether the request was started. */
    method BeginFetchGoogleVoices(store: KeyValueStore) returns (started: bool)
      modifies this
      ensures started <==> FetchKeyUsable(store.GetItem(GeminiStorageKey))
      ensures !started ==> voiceError == Some(MissingKeyVoiceError) && googleVoices == []
                           && isLoadingVoices == old(isLoadingVoices)
      ensures started ==> isLoadingVoices && voiceError == None && googleVoices == old(googleVoices)
      ensures !started && ttsProvider == GoogleProvider ==> ShouldAutoFetch()
      ensures FormFieldsUnchanged()
    {
      var geminiKey := store.GetItem(GeminiStorageKey);
      if geminiKey.None? || geminiKey.value == "" || Trim(geminiKey.value) == "" {
        voiceError := Some(MissingKeyVoiceError);
        googleVoices := [];
        return false;
      }
      isLoadingVoices := true;
      voiceError := None;
      return true;
    }

    /** `fetchGoogleVoices` after its `await`: store the voices or the
        error, and leave the loading state in every case. */
    method CompleteFetchGoogleVoices(result: FetchResult)
      modifies this
      ensures !isLoadingVoices
      ensures result.Fetched? ==> googleVoices == result.voices && voiceError == old(voiceError)
      ensures result.FetchFailed? ==> googleVoices == old(googleVoices) && voiceError == Some(LoadFailedVoiceError)
      ensures FormFieldsUnchanged()
    {
      match result {
        case Fetched(voices) =>
          googleVoices := voices;
        case FetchFailed =>
          voiceError := Some(LoadFailedVoiceError);
      }
      isLoadingVoices := false;
    }

    /** The whole of `fetchGoogleVoices`, with `result` the settled answer
        of the request it starts (ignored when no request is started). */
    method FetchGoogleVoices(store: KeyValueStore, result: FetchResult)
      modifies this
      ensures !FetchKeyUsable(store.GetItem(GeminiStorageKey)) ==>
        voiceError == Some(MissingKeyVoiceError) && googleVoices == [] && isLoadingVoices == old(isLoadingVoices)
      ensures FetchKeyUsable(store.GetItem(GeminiStorageKey)) ==>
        && !isLoadingVoices
        && (result.Fetched? ==> googleVoices == result.voices && voiceError == None)
        && (result.FetchFailed? ==> googleVoices == old(googleVoices) && voiceError == Some(LoadFailedVoiceError))
      ensures FormFieldsUnchanged()
    {
      var started := BeginFetchGoogleVoices(store);
      if started {
        CompleteFetchGoogleVoices(result);
      }
    }

    /** The auto-fetch `useEffect`: fetches exactly when its condition holds. */
    method AutoFetchEffect(store: KeyValueStore, result: FetchResult) returns (fetched: bool)
      modifies this
      ensures fetched <==> old(ShouldAutoFetch())
      ensures !fetched ==> unchanged(this)
      ensures fetched && !FetchKeyUsable(store.GetItem(GeminiStorageKey)) ==>
        voiceError == Some(MissingKeyVoiceError) && googleVoices == [] && isLoadingVoices == old(isLoadingVoices)
      ensures fetched && FetchKeyUsable(store.GetItem(GeminiStorageKey)) ==>
        && !isLoadingVoices
        && (result.Fetched? ==> googleVoices == result.voices && voiceError == None)
        && (result.FetchFailed? ==> googleVoices == old(googleVoices) && voiceError == Some(LoadFailedVoiceError))
      ensures fetched && FetchKeyUsable(store.GetItem(GeminiStorageKey)) && result.Fetched? && result.voices != []
        ==> !ShouldAutoFetch()
      ensures FormFieldsUnchanged()
    {
      fetched := ShouldAutoFetch();
      if fetched {
        FetchGoogleVoices(store, result);
      }
    }

    /** `handleFileSelect`: remember the file; a file tab sets its
        placeholder row count, the text tab leaves the count alone. */
    method HandleFileSelect(file: File)
      modifies this`selectedFile, this`rowCount
      ensures selectedFile == Some(file)
      ensures inputTab == ExcelTab ==> rowCount == ExcelRowCount
      ensures inputTab == TxtTab ==> rowCount == TxtRowCount
      ensures inputTab == TextTab ==> rowCount == old(rowCount)
    {
      selectedFile := Some(file);
      if inputTab == ExcelTab { rowCount := ExcelRowCount; }
      if inputTab == TxtTab { rowCount := TxtRowCount; }
    }

    /** The payload `handleGenerate` logs: the raw state, unclamped. */
    function Payload(): (p: GeneratePayload)
      reads this
      ensures p.provider == ttsProvider && p.source == inputTab
      ensures p.cloneId == selectedCloneId && p.googleVoice == selectedGoogleVoice
      ensures p.language == language && p.segmentSize == segmentSize
    {
      GeneratePayload(ttsProvider, inputTab, selectedCloneId, selectedGoogleVoice, language, segmentSize)
    }

    /** `handleGenerate`: five checks in order, the first failure wins;
        only when all pass is the payload emitted. */
    function HandleGenerate(store: KeyValueStore): (r: GenerateOutcome)
      reads this, store
      ensures var keyMissing := ttsProvider == GoogleProvider && !GenerateKeyPresent(store.GetItem(GeminiStorageKey));
        var textMissing := inputTab == TextTab && text == "";
        var fileMissing := inputTab != TextTab && selectedFile.None?;
        var cloneMissing := ttsProvider == CloneProvider && selectedCloneId == "";
        var voiceMissing := ttsProvider == GoogleProvider && selectedGoogleVoice == "";
        && (keyMissing ==> r == Reject(MissingKeyAlert))
        && (!keyMissing && textMissing ==> r == Reject(MissingTextAlert))
        && (!keyMissing && !textMissing && fileMissing ==> r == Reject(MissingFileAlert))
        && (!keyMissing && !textMissing && !fileMissing && cloneMissing ==> r == Reject(MissingCloneAlert))
        && (!keyMissing && !textMissing && !fileMissing && !cloneMissing && voiceMissing ==> r == Reject(MissingVoiceAlert))
        && (r.Accept? <==> !keyMissing && !textMissing && !fileMissing && !cloneMissing && !voiceMissing)
      ensures r.Accept? ==> r.payload == Payload()
    {
      if ttsProvider == GoogleProvider && !GenerateKeyPresent(store.GetItem(GeminiStorageKey)) then
        Reject(MissingKeyAlert)
      else if inputTab == TextTab && text == "" then
        Reject(MissingTextAlert)
      else if inputTab != TextTab && selectedFile.None? then
        Reject(MissingFileAlert)
      else if ttsProvider == CloneProvider && selectedCloneId == "" then
        Reject(MissingCloneAlert)
      else if ttsProvider == GoogleProvider && selectedGoogleVoice == "" then
        Reject(MissingVoiceAlert)
      else
        Accept(Payload())
    }
  }

  /** The text tab with empty text is refused whatever the other fields hold. */
  lemma EmptyTextAlwaysRejected(form: TtsForm, store: KeyValueStore)
    requires form.inputTab == TextTab && form.text == ""
    ensures form.HandleGenerate(store).Reject?
  {
  }

  /** An accepted Generate means every one of the five checks passed. */
  lemma AcceptedMeansComplete(form: TtsForm, store: KeyValueStore)
    requires form.HandleGenerate(store).Accept?
    ensures form.inputTab == TextTab ==> form.text != ""
    ensures form.inputTab != TextTab ==> form.selectedFile.Some?
    ensures form.ttsProvider == CloneProvider ==> form.selectedCloneId != ""
    ensures form.ttsProvider == GoogleProvider ==>
      GenerateKeyPresent(store.GetItem(GeminiStorageKey)) && form.selectedGoogleVoice != ""
  {
  }

  /** The 100 to 300 range shown next to the segment size is not enforced:
      any segment size reaches the payload as it is. */
  lemma SegmentSizeNotClamped(form: TtsForm, store: KeyValueStore)
    requires form.HandleGenerate(store).Accept?
    ensures form.HandleGenerate(store).payload.segmentSize == form.segmentSize
  {
  }

  /** A whitespace-only key passes Generate although the voice fetch
      refuses it. */
  lemma BlankKeyPassesGenerateOnly(form: TtsForm, store: KeyValueStore)
    requires form.ttsProvider == GoogleProvider
    requires store.GetItem(GeminiStorageKey) == Some(" ")
    requires form.inputTab == TextTab && form.text != "" && form.selectedGoogleVoice != ""
    ensures !FetchKeyUsable(store.GetItem(GeminiStorageKey))
    ensures form.HandleGenerate(store).Accept?
  {
    assert IsJsWhitespace(" "[0]);
    TrimEmptyIffBlank(" ");
  }
}
