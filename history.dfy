/**
 * The side panel's list updates: the check before a generation, the history
 * entry it records, the capped history, favourites, deletion, and the
 * reference-intent selection.
 */
module History {
  import opened Wrappers
  import opened Strings
  import opened Seqs
  import opened Types

  // ---------------------------------------------------------------------------
  // Validation before generation

  const NoImageMessage: string := "กรุณาอัปโหลดรูปภาพที่ต้องการแกะสูตร"
  const NoContentMessage: string := "กรุณาใส่เนื้อหา/หัวข้อที่ต้องการสร้างภาพ"

  /**
   * The guard of `handleGenerate`: reverse engineering needs an image, every
   * other task needs content that is not blank; reverse engineering never
   * looks at the content.
   */
  function ValidationError(task: TaskType, imageCount: nat, content: string): (r: Option<string>)
    ensures r.None? <==> (task == ImageToPrompt && imageCount > 0) || (task != ImageToPrompt && !Blank(content))
    ensures task == ImageToPrompt && imageCount == 0 ==> r == Some(NoImageMessage)
    ensures task != ImageToPrompt && Blank(content) ==> r == Some(NoContentMessage)
  {
    if task == ImageToPrompt && imageCount == 0 then Some(NoImageMessage)
    else if task != ImageToPrompt && Blank(content) then Some(NoContentMessage)
    else None
  }

  // ---------------------------------------------------------------------------
  // History entries

  const MaxHistory: nat := 50
  const ImageToPromptLabel: string := "Image-to-Prompt"

  /**
   * The entry recorded after a successful generation: its id is the clock
   * reading in decimal, an empty content is recorded as the task's label,
   * and it starts as not a favourite.
   */
  function NewHistoryItem(clock: nat, timestamp: int, task: TaskType, content: string, result: PromptResult): (r: HistoryItem)
    ensures r.id != "" && forall i :: 0 <= i < |r.id| ==> IsDigit(r.id[i])
    ensures r.timestamp == timestamp && r.taskType == task && r.result == result && !r.isFavorite
    ensures r.contentInput == (if content == "" then ImageToPromptLabel else content)
    ensures r.contentInput != ""
  {
    HistoryItem(NatToString(clock), timestamp, task, if content == "" then ImageToPromptLabel else content, result, false)
  }

  /** Entries recorded at different clock readings have different ids. */
  lemma DistinctClocksDistinctIds(c1: nat, c2: nat, timestamp: int, task: TaskType, content: string, result: PromptResult)
    requires c1 != c2
    ensures NewHistoryItem(c1, timestamp, task, content, result).id != NewHistoryItem(c2, timestamp, task, content, result).id
  {
    NatToStringRoundTrip(c1);
    NatToStringRoundTrip(c2);
  }

  /** `[item, ...prev].slice(0, 50)`: the new entry first, then the newest of the old ones, at most 50 in all. */
  function AddToHistory(item: HistoryItem, history: seq<HistoryItem>): (r: seq<HistoryItem>)
    ensures |r| == if |history| + 1 <= MaxHistory then |history| + 1 else MaxHistory
    ensures r[0] == item
    ensures r[1..] == history[..|r| - 1]
  {
    var all := [item] + history;
    var r := if |all| <= MaxHistory then all else all[..MaxHistory];
    assert r[1..] == history[..|r| - 1];
    r
  }

  /**
   * However many generations succeed, the history holds the newest entries
   * first, the most recent at the head, followed by the oldest ones kept in
   * their order, and never more than 50 once it started within the cap.
   */
  lemma {:induction false} HistoryStaysCapped(items: seq<HistoryItem>, history: seq<HistoryItem>)
    ensures |AddAll(items, history)| ==
      if items == [] then |history|
      else if |items| + |history| <= MaxHistory then |items| + |history| else MaxHistory
    ensures forall i :: 0 <= i < |AddAll(items, history)| && i < |items| ==>
      AddAll(items, history)[i] == items[|items| - 1 - i]
    ensures forall i :: |items| <= i < |AddAll(items, history)| ==>
      AddAll(items, history)[i] == history[i - |items|]
    ensures |history| <= MaxHistory ==> |AddAll(items, history)| <= MaxHistory
  {
    AddAllLength(items, history);
    AddAllNewest(items, history);
    AddAllOldest(items, history);
  }

  lemma {:induction false} AddAllLength(items: seq<HistoryItem>, history: seq<HistoryItem>)
    ensures |AddAll(items, history)| ==
      if items == [] then |history|
      else if |items| + |history| <= MaxHistory then |items| + |history| else MaxHistory
  {
    if items != [] {
      AddAllLength(items[..|items| - 1], history);
    }
  }

  /** After one more insertion, every entry but the head moves one place down. */
  lemma AddAllShifts(items: seq<HistoryItem>, history: seq<HistoryItem>, i: nat)
    requires items != [] && 1 <= i < |AddAll(items, history)|
    ensures AddAll(items, history)[i] == AddAll(items[..|items| - 1], history)[i - 1]
  {
    var r := AddAll(items, history);
    assert r[1..][i - 1] == r[i];
  }

  lemma {:induction false} AddAllNewest(items: seq<HistoryItem>, history: seq<HistoryItem>)
    ensures forall i :: 0 <= i < |AddAll(items, history)| && i < |items| ==>
      AddAll(items, history)[i] == items[|items| - 1 - i]
  {
    if items != [] {
      var n := |items|;
      var earlier := items[..n - 1];
      AddAllNewest(earlier, history);
      forall i | 0 <= i < |AddAll(items, history)| && i < n
        ensures AddAll(items, history)[i] == items[n - 1 - i]
      {
        if i > 0 {
          AddAllShifts(items, history, i);
          assert AddAll(earlier, history)[i - 1] == earlier[n - 2 - (i - 1)];
        }
      }
    }
  }

  lemma {:induction false} AddAllOldest(items: seq<HistoryItem>, history: seq<HistoryItem>)
    ensures forall i :: |items| <= i < |AddAll(items, history)| ==>
      AddAll(items, history)[i] == history[i - |items|]
  {
    if items != [] {
      var n := |items|;
      var earlier := items[..n - 1];
      AddAllOldest(earlier, history);
      forall i | n <= i < |AddAll(items, history)|
        ensures AddAll(items, history)[i] == history[i - n]
      {
        AddAllShifts(items, history, i);
        assert AddAll(earlier, history)[i - 1] == history[i - 1 - |earlier|];
      }
    }
  }

  /** The history after recording `items` one after the other. */
  function AddAll(items: seq<HistoryItem>, history: seq<HistoryItem>): (r: seq<HistoryItem>)
    ensures |r| <= |items| + |history|
  {
    if items == [] then history
    else AddToHistory(items[|items| - 1], AddAll(items[..|items| - 1], history))
  }

  /** An entry with its favourite flag flipped if it carries the id. */
  function Flip(item: HistoryItem, id: string): HistoryItem
  {
    if item.id == id then item.(isFavorite := !item.isFavorite) else item
  }

  /** `handleFavoriteHistory`: flips the flag of exactly the entries with the id; nothing else changes. */
  function ToggleFavorite(history: seq<HistoryItem>, id: string): (r: seq<HistoryItem>)
    ensures |r| == |history|
    ensures forall i :: 0 <= i < |r| ==>
      r[i].(isFavorite := history[i].isFavorite) == history[i] &&
      (r[i].isFavorite <==> (history[i].isFavorite != (history[i].id == id)))
  {
    seq(|history|, i requires 0 <= i < |history| => Flip(history[i], id))
  }

  /** Toggling the same id twice restores the history. */
  lemma ToggleFavoriteTwice(history: seq<HistoryItem>, id: string)
    ensures ToggleFavorite(ToggleFavorite(history, id), id) == history
  {
    var once := ToggleFavorite(history, id);
    var twice := ToggleFavorite(once, id);
    forall i | 0 <= i < |history|
      ensures twice[i] == history[i]
    {
      assert once[i].id == history[i].id;
    }
  }

  function KeepOtherEntries(id: string): HistoryItem -> bool
  {
    (item: HistoryItem) => item.id != id
  }

  /** `handleDeleteHistory`: exactly the entries without the id remain, each as often as before, in their order. */
  function DeleteById(history: seq<HistoryItem>, id: string): (r: seq<HistoryItem>)
    ensures |r| <= |history|
    ensures forall item :: item in r <==> item in history && item.id != id
    ensures forall item :: multiset(r)[item] == if item.id != id then multiset(history)[item] else 0
    ensures SubsequenceOf(r, history)
  {
    FilterCounts(history, KeepOtherEntries(id));
    Filter(history, KeepOtherEntries(id))
  }

  /** Deleting an id nobody carries changes nothing, and deleting twice is deleting once. */
  lemma DeleteByIdSettles(history: seq<HistoryItem>, id: string)
    ensures (forall item :: item in history ==> item.id != id) ==> DeleteById(history, id) == history
    ensures DeleteById(DeleteById(history, id), id) == DeleteById(history, id)
  {
    FilterKeepsAll(DeleteById(history, id), KeepOtherEntries(id));
    if forall item :: item in history ==> item.id != id {
      FilterKeepsAll(history, KeepOtherEntries(id));
    }
  }

  // ---------------------------------------------------------------------------
  // Reference intents

  function KeepOtherIntents(id: string): string -> bool
  {
    x => x != id
  }

  /** `handleToggleIntent`: a selected id is removed wherever it occurs, an unselected one is appended. */
  function ToggleIntent(intents: seq<string>, id: string): (r: seq<string>)
    ensures id in r <==> id !in intents
    ensures forall x :: x != id ==> (x in r <==> x in intents)
    ensures id !in intents ==> r == intents + [id]
    ensures id in intents ==> SubsequenceOf(r, intents)
    ensures id in intents ==> forall x :: multiset(r)[x] == if x != id then multiset(intents)[x] else 0
  {
    FilterCounts(intents, KeepOtherIntents(id));
    if id in intents then Filter(intents, KeepOtherIntents(id)) else intents + [id]
  }

  /** Selecting an unselected id and toggling it again restores the selection, order included. */
  lemma ToggleIntentTwice(intents: seq<string>, id: string)
    requires id !in intents
    ensures ToggleIntent(ToggleIntent(intents, id), id) == intents
  {
    var p := KeepOtherIntents(id);
    FilterAppend(intents, [id], p);
    FilterKeepsAll(intents, p);
    assert Filter([id], p) == [];
  }
}
