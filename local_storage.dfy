/**
 * lib/utils/local-storage.ts: the ten most recent transcriptions, newest
 * first, kept in the browser's local storage under one key. The store is
 * modelled as holding the parsed value directly rather than its JSON text.
 */
module LocalStorage {
  import opened Wrappers
  import opened Whisper

  /** The local-storage key of the list. */
  const StorageKey: string := "saved_transcriptions"

  /** How many transcriptions the list keeps. */
  const MaxStored: nat := 10

  /** One saved transcription; `timestamp` is `Date.now()` at the save, in milliseconds. */
  datatype StoredTranscription = StoredTranscription(
    transcription: WhisperResponse,
    language: string,
    timestamp: int,
    fileName: string)

  /**
   * What the storage holds under the key: nothing (or the empty string), a
   * text `JSON.parse` rejects, a JSON value that is not a list, or the list.
   */
  datatype Slot = Absent | Unparsable | NonList | Items(items: seq<StoredTranscription>)

  /** What the list becomes once `item` is put in front of `previous`: `[item, ...previous].slice(0, 10)`. */
  function Saved(previous: seq<StoredTranscription>, item: StoredTranscription): seq<StoredTranscription> {
    ([item] + previous)[..if |previous| + 1 < MaxStored then |previous| + 1 else MaxStored]
  }

  /**
   * The list after a save holds at most ten entries, the new one first, then
   * the previous entries in their order, as many as fit.
   */
  lemma SavedShape(previous: seq<StoredTranscription>, item: StoredTranscription)
    ensures |Saved(previous, item)| <= MaxStored
    ensures |Saved(previous, item)| == if |previous| < MaxStored then |previous| + 1 else MaxStored
    ensures Saved(previous, item)[0] == item
    ensures Saved(previous, item)[1..] == previous[..|Saved(previous, item)| - 1]
  {
    var n := |Saved(previous, item)|;
    assert Saved(previous, item)[1..] == ([item] + previous)[1..n];
    assert ([item] + previous)[1..n] == previous[..n - 1];
  }

  /** Saving items one after the other: each save puts its item in front. */
  function SaveAll(previous: seq<StoredTranscription>, items: seq<StoredTranscription>): seq<StoredTranscription>
    decreases |items|
  {
    if |items| == 0 then previous else Saved(SaveAll(previous, items[..|items| - 1]), items[|items| - 1])
  }

  function Reverse(s: seq<StoredTranscription>): (r: seq<StoredTranscription>)
    ensures |r| == |s|
  {
    if |s| == 0 then [] else [s[|s| - 1]] + Reverse(s[..|s| - 1])
  }

  function Take(s: seq<StoredTranscription>, n: nat): (r: seq<StoredTranscription>)
    ensures |r| == if |s| < n then |s| else n
  {
    s[..if |s| < n then |s| else n]
  }

  /**
   * A run of saves keeps the ten newest transcriptions, the latest save
   * first: the saved items in reverse order, then the earlier list.
   */
  lemma {:induction false} SaveAllKeepsNewest(previous: seq<StoredTranscription>, items: seq<StoredTranscription>)
    requires |previous| <= MaxStored
    ensures SaveAll(previous, items) == Take(Reverse(items) + previous, MaxStored)
    decreases |items|
  {
    if |items| > 0 {
      var init, last := items[..|items| - 1], items[|items| - 1];
      SaveAllKeepsNewest(previous, init);
      var whole := Reverse(init) + previous;
      assert Reverse(items) + previous == [last] + whole;
      TakeFront(whole, last);
    }
  }

  lemma TakeFront(whole: seq<StoredTranscription>, item: StoredTranscription)
    ensures Saved(Take(whole, MaxStored), item) == Take([item] + whole, MaxStored)
  {
    var kept := Take(whole, MaxStored);
    var n := |Saved(kept, item)|;
    assert Saved(kept, item) == ([item] + kept)[..n];
    assert forall i | 0 <= i < n :: ([item] + kept)[i] == ([item] + whole)[i];
  }

  /** The browser's local storage, as far as the key of the list goes. */
  class TranscriptionStore {
    var slot: Slot

    constructor()
      ensures slot == Absent
    {
      slot := Absent;
    }

    /**
     * `getStoredTranscriptions`: the stored list, or [] when the key is
     * missing, the text does not parse or reading the storage throws
     * (`readFails`). A JSON value that is not a list is returned as it is,
     * which is None here.
     */
    function Stored(readFails: bool): (r: Option<seq<StoredTranscription>>)
      reads this
      ensures readFails || slot == Absent || slot == Unparsable ==> r == Some([])
      ensures r.Some? && r != Some([]) ==> slot.Items? && r == Some(slot.items)
      ensures !readFails && slot.Items? ==> r == Some(slot.items)
      ensures !readFails && slot.NonList? ==> r == None
      ensures r == None <==> !readFails && slot == NonList
    {
      if readFails then Some([])
      else match slot
        case Absent => Some([])
        case Unparsable => Some([])
        case NonList => None
        case Items(items) => Some(items)
    }

    /**
     * `saveTranscription`: reads the list, puts the new item in front, keeps
     * ten and writes the list back. A value that is not a list (whose
     * `unshift` throws) or a failed write (`writeFails`) is caught and
     * leaves the storage as it was.
     */
    method SaveTranscription(transcription: WhisperResponse, language: string, fileName: string,
                             now: int, readFails: bool, writeFails: bool)
      modifies this
      ensures var stored := old(Stored(readFails));
              slot == if stored.None? || writeFails then old(slot)
                      else Items(Saved(stored.value, StoredTranscription(transcription, language, now, fileName)))
    {
      var stored := Stored(readFails);
      if stored.None? {
        return;
      }
      var newItem := StoredTranscription(transcription, language, now, fileName);
      var list := [newItem] + stored.value;
      var updated := list[..if |list| < MaxStored then |list| else MaxStored];
      if !writeFails {
        slot := Items(updated);
      }
    }

    /** `clearStoredTranscriptions`: removes the key unless the removal throws. */
    method ClearStoredTranscriptions(removeFails: bool)
      modifies this
      ensures slot == if removeFails then old(slot) else Absent
      ensures !removeFails ==> Stored(false) == Some([])
    {
      if !removeFails {
        slot := Absent;
      }
    }
  }

  /**
   * After a clear the list reads as empty, and a save that then succeeds
   * stores exactly the new item.
   */
  method ClearThenSave(store: TranscriptionStore, transcription: WhisperResponse, language: string,
                       fileName: string, now: int)
    modifies store
    ensures store.Stored(false) == Some([StoredTranscription(transcription, language, now, fileName)])
  {
    store.ClearStoredTranscriptions(false);
    store.SaveTranscription(transcription, language, fileName, now, false, false);
  }
}
