/** The voice-clone creation form (`CreateCloneForm`): the upload check on
    the chosen audio file and the ordered checks of the submit button. */
module VoiceClones {
  import opened Types
  import opened Platform

  /** The accepted MIME types: MP3, WAV and M4A. */
  const AllowedTypes: seq<string> := ["audio/mpeg", "audio/wav", "audio/x-m4a"]

  /** The size ceiling, 50 MiB; a file of exactly this size is accepted. */
  const MaxFileSize: nat := 50 * 1024 * 1024

  const FormatError: string := "Định dạng file không hợp lệ. Vui lòng chọn MP3, WAV, hoặc M4A."
  const SizeError: string := "Kích thước file không được vượt quá 50MB."
  const SignInError: string := "Bạn phải đăng nhập để thực hiện hành động này."
  const MissingKeyError: string :=
    "Vui lòng thiết lập API Key của ElevenLabs trong trang Cài đặt trước khi tạo voice clone."
  const MissingFieldsError: string := "Vui lòng nhập Tên Voice Clone và chọn một file audio."

  /** The message `handleFileSelect` shows for a file, or None when the
      file is taken: the type is checked before the size. */
  function FileRejection(f: File): (r: Option<string>)
    ensures r == None <==> f.mimeType in AllowedTypes && f.size <= MaxFileSize
    ensures f.mimeType !in AllowedTypes ==> r == Some(FormatError)
    ensures f.mimeType in AllowedTypes && f.size > MaxFileSize ==> r == Some(SizeError)
  {
    if f.mimeType !in AllowedTypes then Some(FormatError)
    else if f.size > MaxFileSize then Some(SizeError)
    else None
  }

  lemma SizeCeilingIsInclusive(name: string)
    ensures FileRejection(File(name, "audio/wav", 52428800)) == None
    ensures FileRejection(File(name, "audio/wav", 52428801)) == Some(SizeError)
  {
  }

  /** A file of the wrong type that is also too large gets the format error. */
  lemma FormatCheckedBeforeSize(f: File)
    requires f.mimeType !in AllowedTypes && f.size > MaxFileSize
    ensures FileRejection(f) == Some(FormatError)
  {
  }

  /** The message `handleSubmit` shows, or None when it goes on to emit:
      signed in, then an ElevenLabs key on record, then a name and a file. */
  function SubmitRejection(user: Option<User>, credential: CredentialLookup, name: string, file: Option<File>): (r: Option<string>)
    ensures user.None? ==> r == Some(SignInError)
    ensures user.Some? && !HasApiKey(credential) ==> r == Some(MissingKeyError)
    ensures user.Some? && HasApiKey(credential) && (name == "" || file.None?) ==> r == Some(MissingFieldsError)
    ensures r == None <==> user.Some? && HasApiKey(credential) && name != "" && file.Some?
  {
    if user.None? then Some(SignInError)
    else if !HasApiKey(credential) then Some(MissingKeyError)
    else if name == "" || file.None? then Some(MissingFieldsError)
    else None
  }

  /** Every refusal carries a message to show. */
  lemma SubmitRejectionsAreNonEmpty(user: Option<User>, credential: CredentialLookup, name: string, file: Option<File>)
    ensures SubmitRejection(user, credential, name, file).Some? ==> SubmitRejection(user, credential, name, file).value != ""
  {
  }

  /** One call of `onCloneCreate(name, description, file)`. */
  datatype CloneRequest = CloneRequest(name: string, description: string, file: File)

  class CreateCloneForm {
    var name: string
    var description: string
    var file: Option<File>
    var error: string
    var loading: bool
    /** The calls made to `onCloneCreate`, oldest first. */
    var created: seq<CloneRequest>

    constructor ()
      ensures name == "" && description == "" && file == None
      ensures error == "" && !loading && created == []
    {
      name, description, file := "", "", None;
      error, loading, created := "", false, [];
    }

    /** `handleFileSelect`: clears the error, then either takes the file or
        shows why not and keeps the previously chosen file. */
    method HandleFileSelect(selected: File)
      modifies this`error, this`file
      ensures FileRejection(selected) == None ==> file == Some(selected) && error == ""
      ensures FileRejection(selected).Some? ==> file == old(file) && error == FileRejection(selected).value
    {
      error := "";
      if selected.mimeType !in AllowedTypes {
        error := FormatError;
        return;
      }
      if selected.size > MaxFileSize {
        error := SizeError;
        return;
      }
      file := Some(selected);
    }

    /** `handleSubmit`, with the awaited sign-in and credential lookups as
        inputs. A refusal shows its message, leaves the form as it was and
        emits nothing; success emits one request and resets the form. */
    method HandleSubmit(user: Option<User>, credential: CredentialLookup)
      modifies this
      ensures !loading
      ensures var rejection := SubmitRejection(user, credential, old(name), old(file));
        rejection.Some? ==>
          && error == rejection.value && error != ""
          && created == old(created)
          && name == old(name) && description == old(description) && file == old(file)
      ensures var rejection := SubmitRejection(user, credential, old(name), old(file));
        rejection.None? ==>
          && old(file).Some?
          && created == old(created) + [CloneRequest(old(name), old(description), old(file).value)]
          && name == "" && description == "" && file == None && error == ""
    {
      loading := true;
      error := "";

      if user.None? {
        error := SignInError;
        loading := false;
        return;
      }

      if !HasApiKey(credential) {
        error := MissingKeyError;
        loading := false;
        return;
      }

      if name == "" || file.None? {
        error := MissingFieldsError;
        loading := false;
        return;
      }

      created := created + [CloneRequest(name, description, file.value)];
      name := "";
      description := "";
      file := None;
      loading := false;
    }
  }
}
