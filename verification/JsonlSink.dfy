/** `exporters/jsonl/writer.py`: a live file and its rotated backups. */
module JsonlSinks {
  import opened Wrappers

  /** Slot 0 is the live file, slot k the backup with suffix k; a slot may hold no file. */
  type Files = map<nat, string>

  function At(files: Files, slot: nat): string { if slot in files then files[slot] else "" }

  function Slot(files: Files, slot: nat): Option<string> { if slot in files then Some(files[slot]) else None }

  /** The contents of slots n down to 0, oldest first. */
  function Chain(files: Files, n: nat): string {
    if n == 0 then At(files, 0) else At(files, n) + Chain(files, n - 1)
  }

  function Width(c: char): nat {
    var n := c as int;
    if n < 0x80 then 1 else if n < 0x800 then 2 else if n < 0x1_0000 then 3 else 4
  }

  /** The size of a text in UTF-8. */
  function Bytes(text: string): nat { if text == "" then 0 else Width(text[0]) + Bytes(text[1..]) }

  lemma {:induction false} BytesAppend(a: string, b: string)
    ensures Bytes(a + b) == Bytes(a) + Bytes(b)
  {
    if a == "" {
      assert a + b == b;
    } else {
      assert (a + b)[1..] == a[1..] + b;
      BytesAppend(a[1..], b);
    }
  }

  /** One `replace`: the source slot takes the place of the next one. */
  function Move(files: Files, src: nat): (r: Files)
    requires src in files
    ensures forall k: nat :: Slot(r, k) == if k == src then None else if k == src + 1 then Slot(files, src) else Slot(files, k)
  {
    files[src + 1 := files[src]] - {src}
  }

  lemma {:induction false} ChainDepends(a: Files, b: Files, n: nat)
    requires forall k: nat :: k <= n ==> Slot(a, k) == Slot(b, k)
    ensures Chain(a, n) == Chain(b, n)
  {
    assert Slot(a, n) == Slot(b, n);
    if n > 0 { ChainDepends(a, b, n - 1); }
  }

  /** Moving a file up keeps everything that can be read, save what stood in the slot it takes. */
  lemma {:induction false} MoveKeeps(files: Files, src: nat, n: nat)
    requires src in files && src < n && (src + 1 < n ==> src + 1 !in files)
    ensures Chain(files, n) == (if src + 1 == n then At(files, n) else "") + Chain(Move(files, src), n)
  {
    var r := Move(files, src);
    hide Move;
    assert Slot(r, n) == (if n == src + 1 then Slot(files, src) else Slot(files, n));
    if n > src + 1 {
      MoveKeeps(files, src, n - 1);
      assert src + 1 == n - 1 ==> At(files, n - 1) + Chain(r, n - 1) == Chain(r, n - 1);
    } else {
      MoveUp(files, src, n);
    }
  }

  lemma MoveUp(files: Files, src: nat, n: nat)
    requires src in files && src + 1 == n
    ensures Chain(files, n) == At(files, n) + Chain(Move(files, src), n)
  {
    var r := Move(files, src);
    assert Slot(r, n) == Slot(files, src) && Slot(r, src) == None;
    if src > 0 {
      ChainDepends(files, r, src - 1);
      assert Chain(r, n) == files[src] + ("" + Chain(files, src - 1));
    }
  }

  /** Where the file in a slot comes from after a whole rotation over n backups. */
  function Rotated(files: Files, n: nat, slot: nat): Option<string>
    requires slot > 0
  {
    if slot <= n && slot - 1 in files then Slot(files, slot - 1)
    else if slot < n then None
    else Slot(files, slot)
  }

  function LinesText(lines: seq<string>): string {
    if lines == [] then "" else LinesText(lines[..|lines| - 1]) + (lines[|lines| - 1] + "\n")
  }

  /** An OSError: before anything, at the n-th rename, or after n characters of the batch. */
  datatype Fault = NoFault | Directory | Rename(n: nat) | Write(n: nat)

  datatype Sent = Delivered | SchemaViolation | IoFailed

  /** Each file was empty or below the limit before its last write. */
  predicate Bounded(files: Files, before: Files, maxBytes: int) {
    forall k :: k in files ==> k in before && before[k] <= files[k] && (before[k] == "" || Bytes(before[k]) < maxBytes)
  }

  lemma MoveBounded(files: Files, before: Files, maxBytes: int, src: nat)
    requires Bounded(files, before, maxBytes) && src in files
    ensures Bounded(Move(files, src), before[src + 1 := before[src]], maxBytes)
  {
    hide Bytes;
  }

  /** What can still be read is the newest part of everything written. */
  predicate Kept(files: Files, before: Files, written: string, dropped: string, slots: nat, maxBytes: int) {
    written == dropped + Chain(files, slots) && Bounded(files, before, maxBytes)
  }

  lemma ShiftKeeps(files: Files, before: Files, written: string, dropped: string, slots: nat, maxBytes: int, src: nat)
    requires Kept(files, before, written, dropped, slots, maxBytes)
    requires src in files && src < slots && (src + 1 < slots ==> src + 1 !in files)
    ensures src in before
    ensures Kept(Move(files, src), before[src + 1 := before[src]], written,
                 dropped + (if src + 1 == slots then At(files, slots) else ""), slots, maxBytes)
  {
    MoveKeeps(files, src, slots);
    MoveBounded(files, before, maxBytes, src);
    hide Bounded;
    hide Move;
    var lost, kept := if src + 1 == slots then At(files, slots) else "", Chain(Move(files, src), slots);
    hide Chain;
    assert (dropped + lost) + kept == dropped + (lost + kept);
  }

  class JsonlSink {
    const maxBytes: int
    const backups: int
    var files: Files
    /** Everything readable at the start or written since, what rotation has dropped of it, and for each slot
        the content before the last write. */
    ghost var written: string
    ghost var dropped: string
    ghost var before: Files

    /** Without backups the live file still moves to slot 1. */
    function Slots(): (n: nat)
      ensures n >= 1
    {
      if backups < 1 then 1 else backups
    }

    ghost predicate Valid()
      reads this
    {
      Kept(files, before, written, dropped, Slots(), maxBytes)
    }

    constructor (files: Files, maxBytes: int, backups: int)
      ensures Valid() && this.files == files && this.maxBytes == maxBytes && this.backups == backups
      ensures dropped == "" && written == Chain(files, Slots())
    {
      this.files, this.maxBytes, this.backups := files, maxBytes, backups;
      dropped := "";
      before := map k | k in files :: "";
      written := Chain(files, if backups < 1 then 1 else backups);
    }

    predicate Due(files: Files) { 0 in files && Bytes(files[0]) >= maxBytes }

    /** One rename of the rotation; only into the last slot does it drop anything. */
    method Shift(src: nat)
      requires Valid() && src in files && src < Slots() && (src + 1 < Slots() ==> src + 1 !in files)
      modifies `files, `dropped, `before
      ensures Valid() && files == Move(old(files), src)
      ensures dropped == old(dropped) + (if src + 1 == Slots() then At(old(files), Slots()) else "")
    {
      ShiftKeeps(files, before, written, dropped, Slots(), maxBytes, src);
      hide Kept;
      hide Move;
      dropped := dropped + (if src + 1 == Slots() then At(files, Slots()) else "");
      before := before[src + 1 := before[src]];
      files := Move(files, src);
    }

    /** `_rotate_if_needed`, with a rename that may fail. */
    method RotateIfNeeded(failAt: Option<nat>) returns (ok: bool)
      requires Valid()
      modifies `files, `dropped, `before
      ensures Valid()
      ensures !Due(old(files)) ==> ok && files == old(files) && dropped == old(dropped)
      ensures Due(old(files)) && ok ==>
        && 0 !in files && (forall k: nat :: k > 0 ==> Slot(files, k) == Rotated(old(files), Slots(), k))
        && dropped == old(dropped) + (if Slots() - 1 in old(files) then At(old(files), Slots()) else "")
      ensures old(dropped) <= dropped && (failAt == None ==> ok)
      ensures ok ==> 0 in files ==> Bytes(files[0]) < maxBytes
    {
      hide Chain;
      hide Bytes;
      if 0 !in files || Bytes(files[0]) < maxBytes { return true; }
      var renames, idx := 0, Slots() - 1;
      while idx >= 1
        invariant 0 <= idx <= Slots() - 1 && Valid()
        invariant forall k: nat :: k <= idx ==> Slot(files, k) == Slot(old(files), k)
        invariant forall k: nat :: k > idx + 1 ==> Slot(files, k) == Rotated(old(files), Slots(), k)
        invariant idx + 1 < Slots() ==> idx + 1 !in files
        invariant idx + 1 == Slots() ==> Slot(files, Slots()) == Slot(old(files), Slots())
        invariant dropped == old(dropped) + (if idx + 1 < Slots() && Slots() - 1 in old(files) then At(old(files), Slots()) else "")
      {
        if idx in files {
          if failAt == Some(renames) { return false; }
          Shift(idx);
          renames := renames + 1;
        }
        idx := idx - 1;
      }
      if failAt == Some(renames) { return false; }
      assert Slot(files, 0) == Slot(old(files), 0);
      Shift(0);
      assert Slot(files, 0) == None;
      ok := true;
    }

    /** `send`: rotate, then append the batch, one line an event. */
    method Send(lines: seq<string>, schemaValid: bool, fault: Fault) returns (sent: Sent)
      requires Valid()
      modifies this
      ensures Valid()
      ensures !schemaValid ==> sent == SchemaViolation && files == old(files) && written == old(written)
      ensures schemaValid ==> sent != SchemaViolation && (fault == NoFault ==> sent == Delivered)
      ensures sent == Delivered ==> written == old(written) + LinesText(lines)
      ensures sent == IoFailed ==> exists n :: 0 <= n <= |LinesText(lines)| && written == old(written) + LinesText(lines)[..n]
      ensures sent == Delivered ==>
        0 in files && 0 in before && files[0] == before[0] + LinesText(lines) && (before[0] == "" || Bytes(before[0]) < maxBytes)
      ensures old(dropped) <= dropped
      ensures sent == Delivered && !Due(old(files)) ==>
        files == old(files)[0 := At(old(files), 0) + LinesText(lines)] && dropped == old(dropped)
      ensures sent == Delivered && Due(old(files)) ==>
        && (forall k: nat :: k > 0 ==> Slot(files, k) == Rotated(old(files), Slots(), k)) && files[0] == LinesText(lines)
        && dropped == old(dropped) + (if Slots() - 1 in old(files) then At(old(files), Slots()) else "")
    {
      hide Chain;
      hide Bytes;
      hide Rotated;
      if !schemaValid { return SchemaViolation; }
      if fault == Directory {
        assert written + LinesText(lines)[..0] == written;
        return IoFailed;
      }
      var ok := RotateIfNeeded(if fault.Rename? then Some(fault.n) else None);
      if !ok {
        assert written + LinesText(lines)[..0] == written;
        return IoFailed;
      }
      var out := "";
      for i := 0 to |lines|
        invariant out == LinesText(lines[..i])
      {
        assert lines[..i + 1][..i] == lines[..i];
        out := out + (lines[i] + "\n");
      }
      assert lines[..|lines|] == lines;
      var cut := if fault.Write? && fault.n <= |out| then fault.n else |out|;
      Append(out[..cut]);
      sent := if fault.Write? && fault.n <= |out| then IoFailed else Delivered;
      assert out[..|out|] == out && "" + out == out;
      assert files[0] == At(files, 0);
    }

    method Append(text: string)
      requires Valid() && (0 in files ==> Bytes(files[0]) < maxBytes)
      modifies `files, `written, `before
      ensures Valid() && written == old(written) + text && files == old(files)[0 := At(old(files), 0) + text]
      ensures 0 in before && before[0] == At(old(files), 0)
    {
      AppendChain(files, text, Slots());
      hide Chain;
      hide Bytes;
      before := before[0 := At(files, 0)];
      files := files[0 := At(files, 0) + text];
      written := written + text;
    }
  }

  lemma {:induction false} AppendChain(files: Files, text: string, n: nat)
    ensures Chain(files[0 := At(files, 0) + text], n) == Chain(files, n) + text
  {
    if n > 0 {
      AppendChain(files, text, n - 1);
      assert At(files, n) + (Chain(files, n - 1) + text) == (At(files, n) + Chain(files, n - 1)) + text;
    }
  }

  /** A file holds at most what it held below the limit, plus one batch. */
  lemma SizeBound(content: string, earlier: string, batch: string, maxBytes: int)
    requires content == earlier + batch && (earlier == "" || Bytes(earlier) < maxBytes)
    ensures Bytes(content) <= Bytes(batch) || Bytes(content) < maxBytes + Bytes(batch)
  {
    BytesAppend(earlier, batch);
  }
}
