/**
  * The "start" branch of the console program's menu loop (lab-2-main/main.py):
  * a filled list is sorted with five buckets and may then be saved; the
  * file name gets a ".txt" suffix when it lacks one, and an existing file is
  * overwritten only when the user answers "y". The menus, the console and
  * the file system are given as the user's choices and as a test for
  * whether a file exists.
  */
module CliMain {
  import opened Options
  import opened Text
  import opened Lists
  import opened FileCodec
  import CliSorting

  const SUFFIX := ".txt"

  /** `if not file_name.endswith(".txt"): file_name += ".txt"` */
  function NormalizeName(name: string): (r: string)
    ensures EndsWith(r, SUFFIX)
    ensures |name| <= |r| && r[..|name|] == name
    ensures r == name <==> EndsWith(name, SUFFIX)
  {
    if EndsWith(name, SUFFIX) then name else name + SUFFIX
  }

  /** Normalising a normalised name changes nothing. */
  lemma NormalizeIdempotent(name: string)
    ensures NormalizeName(NormalizeName(name)) == NormalizeName(name)
  {
  }

  /** The overwrite question: `input(...).lower() != "y"` cancels the save. */
  predicate OverwriteConfirmed(answer: string) {
    Lower(answer) == "y"
  }

  /** Exactly the answers "y" and "Y" confirm. */
  lemma OverwriteAnswers(answer: string)
    ensures OverwriteConfirmed(answer) <==> answer == "y" || answer == "Y"
  {
    if |answer| == 1 {
      assert Lower(answer)[0] == LowerChar(answer[0]);
      if LowerChar(answer[0]) == 'y' {
        assert answer[0] == 'y' || answer[0] == 'Y';
      }
    }
  }

  /** The save menu's two entries. */
  datatype SaveChoice = SaveToFile(fileName: string) | Continue

  /**
    * What one pass of the "start" branch did: nothing (filling gave None and
    * the loop went on), or sorted the list and wrote some text to a file or
    * wrote nothing.
    */
  datatype Round = Skipped | Done(sorted: seq<int>, written: Option<(string, string)>)

  /**
    * One pass of the "start" branch: `filled` is what `fill_array` gave,
    * `choice` the save menu's answer, `fileExists` the file system and
    * `answer` the reply to the overwrite question.
    */
  method StartRound(filled: Option<seq<int>>, choice: SaveChoice, fileExists: string -> bool, answer: string)
    returns (round: Round)
    ensures filled.None? <==> round.Skipped?
    ensures round.Done? ==> round.sorted == SortedOf(filled.value)
    ensures round.Done? ==>
      (round.written.Some? <==>
         choice.SaveToFile? && (!fileExists(NormalizeName(choice.fileName)) || OverwriteConfirmed(answer)))
    ensures round.Done? && round.written.Some? ==>
      round.written.value == (NormalizeName(choice.fileName), SavedText(round.sorted))
  {
    if filled.None? {
      return Skipped;
    }
    var list := new IntList(filled.value);
    var sorted := CliSorting.BucketSort(list, CliSorting.BUCKET_COUNT);
    if choice.Continue? {
      return Done(sorted.items, None);
    }
    var fileName := choice.fileName;
    if !EndsWith(fileName, SUFFIX) {
      fileName := fileName + SUFFIX;
    }
    if fileExists(fileName) {
      if !OverwriteConfirmed(answer) {
        return Done(sorted.items, None);
      }
    }
    return Done(sorted.items, Some((fileName, SavedText(sorted.items))));
  }
}
