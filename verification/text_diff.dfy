/**
 `applyTextDiff` of plugins/obsidian-ee/src/collab-client.ts: one splice that turns the document's
 text into the editor's. Both sides are assumed to count in the same text units.
 */
module TextDiff {
  import opened Common

  class SharedText {
    var content: string

    method Delete(pos: nat, len: nat)
      requires pos + len <= |content|
      modifies this
      ensures content == old(content)[..pos] + old(content)[pos + len..]
    {
      content := content[..pos] + content[pos + len..];
    }

    method Insert(pos: nat, text: string)
      requires pos <= |content|
      modifies this
      ensures content == old(content)[..pos] + text + old(content)[pos..]
    {
      content := content[..pos] + text + content[pos..];
    }
  }

  /** Deleting `deleted` units at `pos` and inserting `text` there turns `oldText` into `newText`. */
  ghost predicate IsSplice(oldText: string, newText: string, pos: nat, deleted: nat, text: string) {
    && pos + deleted <= |oldText|
    && oldText[..pos] + text + oldText[pos + deleted..] == newText
  }

  /** A splice keeps a common prefix and a common suffix that do not overlap in either text. */
  lemma SpliceShares(oldText: string, newText: string, pos: nat, deleted: nat, text: string)
    requires IsSplice(oldText, newText, pos, deleted, text)
    ensures var kept := |oldText| - pos - deleted;
      && pos + kept <= |newText| && |text| == |newText| - pos - kept
      && newText[|newText| - kept..] == oldText[|oldText| - kept..]
    ensures forall i :: 0 <= i < pos ==> newText[i] == oldText[i]
  {
    assert forall i :: 0 <= i < pos ==> oldText[..pos][i] == oldText[i];
  }

  /** Keeping a common prefix and suffix and replacing what is between them is a splice. */
  lemma BetweenIsSplice(oldText: string, newText: string, prefix: nat, oldEnd: nat, newEnd: nat)
    requires prefix <= oldEnd <= |oldText| && prefix <= newEnd <= |newText|
    requires oldText[..prefix] == newText[..prefix] && oldText[oldEnd..] == newText[newEnd..]
    ensures IsSplice(oldText, newText, prefix, oldEnd - prefix, newText[prefix..newEnd])
  {
    assert newText == newText[..prefix] + newText[prefix..newEnd] + newText[newEnd..];
  }

  /** Deleting and then inserting carries a splice out, also where one of the two has nothing to do. */
  lemma SpliceInTwoSteps(oldText: string, newText: string, pos: nat, deleted: nat, text: string)
    requires IsSplice(oldText, newText, pos, deleted, text)
    ensures var cut := oldText[..pos] + oldText[pos + deleted..];
      && pos <= |cut| && cut[..pos] + text + cut[pos..] == newText
      && (deleted == 0 ==> cut == oldText) && (text == [] ==> cut == newText)
  {
    var cut := oldText[..pos] + oldText[pos + deleted..];
    assert cut[..pos] == oldText[..pos] && cut[pos..] == oldText[pos + deleted..];
    assert deleted == 0 ==> oldText == oldText[..pos] + oldText[pos..];
  }

  /** Greedy prefix, then greedy suffix of what is left, is at least as much as any splice keeps. */
  lemma GreedyIsMinimal(oldText: string, newText: string, prefix: nat, suffix: nat, p: nat, d: nat, t: string)
    requires prefix + suffix <= |oldText| && prefix + suffix <= |newText|
    requires prefix < |oldText| && prefix < |newText| ==> oldText[prefix] != newText[prefix]
    requires prefix + suffix < |oldText| && prefix + suffix < |newText| ==>
      oldText[|oldText| - suffix - 1] != newText[|newText| - suffix - 1]
    requires IsSplice(oldText, newText, p, d, t)
    ensures |oldText| - prefix - suffix <= d && |newText| - prefix - suffix <= |t|
  {
    SpliceShares(oldText, newText, p, d, t);
    var kept := |oldText| - p - d;
    if suffix < kept {
      assert newText[|newText| - kept..][kept - suffix - 1] == oldText[|oldText| - kept..][kept - suffix - 1];
    }
  }

  lemma NothingToDo(text: string)
    ensures IsSplice(text, text, 0, 0, "")
  {
  }

  /**
   The document ends with exactly the new text, by at most one deletion and one insertion, and no
   single splice deletes fewer or inserts fewer units.
   */
  method ApplyTextDiff(doc: SharedText, newText: string) returns (ghost pos: nat, ghost deleted: nat, ghost text: string)
    modifies doc
    ensures doc.content == newText
    ensures IsSplice(old(doc.content), newText, pos, deleted, text)
    ensures forall p: nat, d: nat, t :: IsSplice(old(doc.content), newText, p, d, t) ==> deleted <= d && |text| <= |t|
  {
    hide IsSplice;
    var oldText := doc.content;
    pos, deleted, text := 0, 0, "";
    if oldText == newText {
      NothingToDo(newText);
      return;
    }
    var oldLen, newLen := |oldText|, |newText|;
    var prefixLen := 0;
    var maxPrefix := Min(oldLen, newLen);
    while prefixLen < maxPrefix && oldText[prefixLen] == newText[prefixLen]
      invariant prefixLen <= maxPrefix
      invariant oldText[..prefixLen] == newText[..prefixLen]
    {
      prefixLen := prefixLen + 1;
    }
    var oldEnd, newEnd := oldLen, newLen;
    while oldEnd > prefixLen && newEnd > prefixLen && oldText[oldEnd - 1] == newText[newEnd - 1]
      invariant prefixLen <= oldEnd <= oldLen && prefixLen <= newEnd <= newLen
      invariant oldLen - oldEnd == newLen - newEnd
      invariant oldText[oldEnd..] == newText[newEnd..]
    {
      assert oldText[oldEnd - 1..] == [oldText[oldEnd - 1]] + oldText[oldEnd..];
      assert newText[newEnd - 1..] == [newText[newEnd - 1]] + newText[newEnd..];
      oldEnd := oldEnd - 1;
      newEnd := newEnd - 1;
    }
    var deleteLen := oldEnd - prefixLen;
    var insertText := newText[prefixLen..newEnd];
    pos, deleted, text := prefixLen, deleteLen, insertText;
    BetweenIsSplice(oldText, newText, prefixLen, oldEnd, newEnd);
    SpliceInTwoSteps(oldText, newText, prefixLen, deleteLen, insertText);
    forall p: nat, d: nat, t | IsSplice(oldText, newText, p, d, t)
      ensures deleted <= d && |text| <= |t|
    {
      GreedyIsMinimal(oldText, newText, prefixLen, oldLen - oldEnd, p, d, t);
    }
    if deleteLen > 0 {
      doc.Delete(prefixLen, deleteLen);
    }
    if |insertText| > 0 {
      doc.Insert(prefixLen, insertText);
    }
  }
}
