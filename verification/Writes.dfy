/** What a store of strings holds after a sequence of writes, said without carrying them out. */
module Writes {
  /** A write replaces the value of its key or adds to its end; `Nothing` is an operation that does neither. */
  datatype Write = Replace(key: string, value: string) | Extend(key: string, value: string) | Nothing

  predicate Replaces(w: Write, key: string) {
    w.Replace? && w.key == key
  }

  predicate Extends(w: Write, key: string) {
    w.Extend? && w.key == key
  }

  /** The position of the last write that replaces the value of the key, or -1. */
  ghost function LastReplaced(ws: seq<Write>, key: string): (p: int)
    ensures -1 <= p < |ws| && (p >= 0 ==> Replaces(ws[p], key))
    ensures forall j :: p < j < |ws| ==> !Replaces(ws[j], key)
  {
    if ws == [] || Replaces(ws[|ws| - 1], key) then |ws| - 1 else LastReplaced(ws[..|ws| - 1], key)
  }

  /** All that is added to the key, one after the other. */
  ghost function Added(ws: seq<Write>, key: string): (r: string) {
    if ws == [] then "" else (if Extends(ws[0], key) then ws[0].value else "") + Added(ws[1..], key)
  }

  /** The value of the last write that replaces the value of the key, followed by all that is added after it. */
  ghost function Written(ws: seq<Write>, key: string): (r: string) {
    var p := LastReplaced(ws, key);
    (if p < 0 then "" else ws[p].value) + Added(ws[p + 1..], key)
  }

  ghost predicate Touched(ws: seq<Write>, key: string) {
    exists j :: 0 <= j < |ws| && (Replaces(ws[j], key) || Extends(ws[j], key))
  }

  lemma Regroup(a: string, b: string, c: string)
    ensures a + (b + c) == (a + b) + c
  {
  }

  lemma {:induction false} AddedMore(ws: seq<Write>, w: Write, key: string)
    ensures Added(ws + [w], key) == Added(ws, key) + if Extends(w, key) then w.value else ""
  {
    if ws == [] {
      assert [w][1..] == [];
    } else {
      AddedMore(ws[1..], w, key);
      assert (ws + [w])[1..] == ws[1..] + [w];
      var first := if Extends(ws[0], key) then ws[0].value else "";
      Regroup(first, Added(ws[1..], key), if Extends(w, key) then w.value else "");
    }
  }

  lemma LastReplacedMore(ws: seq<Write>, w: Write, key: string)
    ensures LastReplaced(ws + [w], key) == if Replaces(w, key) then |ws| else LastReplaced(ws, key)
  {
    assert (ws + [w])[..|ws|] == ws;
  }

  /** What one more write does to the value. */
  lemma WrittenMore(ws: seq<Write>, w: Write, key: string)
    ensures Written(ws + [w], key) ==
      if Replaces(w, key) then w.value
      else if Extends(w, key) then Written(ws, key) + w.value
      else Written(ws, key)
  {
    var all, p := ws + [w], LastReplaced(ws, key);
    LastReplacedMore(ws, w, key);
    hide LastReplaced;
    if Replaces(w, key) {
      assert all[|ws| + 1..] == [];
    } else {
      assert all[p + 1..] == ws[p + 1..] + [w];
      AddedMore(ws[p + 1..], w, key);
      hide Added;
      Regroup(if p < 0 then "" else ws[p].value, Added(ws[p + 1..], key), if Extends(w, key) then w.value else "");
    }
  }

  lemma TouchedMore(ws: seq<Write>, w: Write, key: string)
    ensures Touched(ws + [w], key) <==> Touched(ws, key) || Replaces(w, key) || Extends(w, key)
  {
    var all := ws + [w];
    if Touched(ws, key) {
      var j :| 0 <= j < |ws| && (Replaces(ws[j], key) || Extends(ws[j], key));
      assert all[j] == ws[j];
    }
    assert all[|ws|] == w;
  }

  lemma NothingWritten(key: string)
    ensures Written([], key) == "" && !Touched([], key)
  {
    var none: seq<Write> := [];
    assert LastReplaced(none, key) == -1;
    hide LastReplaced;
    assert none[0..] == [];
  }
}
