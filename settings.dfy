/** The settings page: the masked display of a stored API key, and the save
    and load of the two keys through the browser's key-value storage. */
module Settings {
  import opened Types
  import opened Strings
  import opened Platform

  const NotSetLabel: string := "Chưa thiết lập"
  const MaskPrefix: string := "****-****-****-"
  const SavedMessage: string := "API Keys đã được lưu thành công!"

  /** `getDisplayKey`: the label for an unset key, otherwise the mask
      followed by at most the last four characters of the key. */
  function GetDisplayKey(key: string): (shown: string)
    ensures key == "" ==> shown == NotSetLabel
    ensures key != "" ==>
      && |shown| == |MaskPrefix| + Min(4, |key|)
      && shown[..|MaskPrefix|] == MaskPrefix
      && key == key[..|key| - Min(4, |key|)] + shown[|MaskPrefix|..]
  {
    if key == "" then NotSetLabel else MaskPrefix + SliceLast(key, 4)
  }

  /** The mask shows at most four characters of the key, and a key of
      fewer than four characters in full. */
  lemma DisplayKeyRevealsAtMostFour(key: string)
    requires key != ""
    ensures |GetDisplayKey(key)| <= 19
    ensures |key| <= 4 ==> GetDisplayKey(key) == MaskPrefix + key
    ensures |key| >= 4 ==> GetDisplayKey(key) == MaskPrefix + key[|key| - 4..]
  {
    var shown := GetDisplayKey(key);
    if |key| <= 4 {
      assert shown == shown[..|MaskPrefix|] + shown[|MaskPrefix|..];
    } else {
      assert shown == shown[..|MaskPrefix|] + shown[|MaskPrefix|..];
      assert key[|key| - 4..] == shown[|MaskPrefix|..];
    }
  }

  /** A set key is never displayed as unset. */
  lemma DisplayKeyDistinguishesUnset(key: string)
    requires key != ""
    ensures GetDisplayKey(key) != NotSetLabel
  {
    assert GetDisplayKey(key)[0] == '*';
  }

  /** Keys that share their last four characters display alike. */
  lemma DisplayKeyDependsOnTailOnly(a: string, b: string)
    requires |a| >= 4 && |b| >= 4 && a[|a| - 4..] == b[|b| - 4..]
    ensures GetDisplayKey(a) == GetDisplayKey(b)
  {
    DisplayKeyRevealsAtMostFour(a);
    DisplayKeyRevealsAtMostFour(b);
  }

  class SettingsPage {
    var elevenLabsKey: string
    var geminiKey: string
    var message: string

    constructor ()
      ensures elevenLabsKey == "" && geminiKey == "" && message == ""
    {
      elevenLabsKey, geminiKey, message := "", "", "";
    }

    /** The load effect: each key from storage, `''` when absent. */
    method LoadSavedKeys(store: KeyValueStore)
      modifies this`elevenLabsKey, this`geminiKey
      ensures ElevenLabsStorageKey in store.items ==> elevenLabsKey == store.items[ElevenLabsStorageKey]
      ensures ElevenLabsStorageKey !in store.items ==> elevenLabsKey == ""
      ensures GeminiStorageKey in store.items ==> geminiKey == store.items[GeminiStorageKey]
      ensures GeminiStorageKey !in store.items ==> geminiKey == ""
    {
      elevenLabsKey := store.GetItem(ElevenLabsStorageKey).GetOr("");
      geminiKey := store.GetItem(GeminiStorageKey).GetOr("");
    }

    /** `handleSave`: writes both keys, touches no other storage key, and
        shows the success message. */
    method HandleSave(store: KeyValueStore)
      modifies store, this`message
      ensures store.items == old(store.items)[ElevenLabsStorageKey := elevenLabsKey][GeminiStorageKey := geminiKey]
      ensures store.GetItem(ElevenLabsStorageKey) == Some(elevenLabsKey)
      ensures store.GetItem(GeminiStorageKey) == Some(geminiKey)
      ensures forall k :: k != ElevenLabsStorageKey && k != GeminiStorageKey ==> store.GetItem(k) == old(store.GetItem(k))
      ensures message == SavedMessage
    {
      store.SetItem(ElevenLabsStorageKey, elevenLabsKey);
      store.SetItem(GeminiStorageKey, geminiKey);
      message := SavedMessage;
    }
  }

  /** Saving and then opening the page again shows the saved keys. */
  method SaveThenReload(page: SettingsPage, store: KeyValueStore) returns (reopened: SettingsPage)
    modifies store, page`message
    ensures fresh(reopened)
    ensures reopened.elevenLabsKey == page.elevenLabsKey && reopened.geminiKey == page.geminiKey
  {
    page.HandleSave(store);
    reopened := new SettingsPage();
    reopened.LoadSavedKeys(store);
  }
}
