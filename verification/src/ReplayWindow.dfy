/** The sliding replay window (section 4.1.2.6 of RFC 6347): a newest sequence
    number and a 64-bit map that together refine a set of sequence numbers. */
module ReplayWindow {
  import opened Bytes
  import opened Bits
  import opened Record

  datatype Window = Window(newest: Option<U64>, seen: nat)

  const FRESH: Window := Window(None, 0)

  predicate HasSeen(w: Window, s: U64) {
    match w.newest
    case None => false
    case Some(newest) => s <= newest && (newest - s >= WORD_BITS || Shr(w.seen, newest - s) % 2 == 1)
  }

  function MarkSeen(w: Window, s: U64): Window {
    match w.newest
    case None => Window(Some(s), 1)
    case Some(newest) =>
      if s > newest then Window(Some(s), if s - newest >= WORD_BITS then 1 else Or(Shl(w.seen, s - newest, WORD_BITS), 1))
      else if newest - s < WORD_BITS then Window(Some(newest), Or(w.seen, Shl(1, newest - s, WORD_BITS)))
      else w
  }

  /** `w` stands for the set `marked`: the newest number is its maximum, and each
      bit tells the membership of the number that far back. */
  ghost predicate Represents(w: Window, marked: set<int>) {
    match w.newest
    case None => marked == {}
    case Some(newest) =>
      && newest in marked && (forall s :: s in marked ==> 0 <= s <= newest)
      && forall i: nat :: i < WORD_BITS ==> (Bit(w.seen, i) <==> newest - i in marked)
  }

  /** What the window answers, in terms of the set. */
  lemma HasSeenMeans(w: Window, marked: set<int>, s: U64)
    requires Represents(w, marked)
    ensures HasSeen(w, s) <==> s in marked || (w.newest.Some? && w.newest.value - s >= WORD_BITS)
  {
    hide Shr;
    if w.newest.Some? && s <= w.newest.value && w.newest.value - s < WORD_BITS {
      var i := w.newest.value - s;
      assert Bit(w.seen, i) <==> w.newest.value - i in marked;
    }
  }

  lemma MarkSeenRepresents(w: Window, marked: set<int>, s: U64)
    requires Represents(w, marked)
    ensures Represents(MarkSeen(w, s), marked + {s})
  {
    hide Bit, Or, Shl, Shr;
    var after := MarkSeen(w, s);
    var newest := after.newest.value;
    forall i: nat | i < WORD_BITS
      ensures Bit(after.seen, i) <==> newest - i in marked + {s}
    {
      OneBit(i);
      if w.newest.Some? {
        if s > w.newest.value {
          var k := s - w.newest.value;
          if k < WORD_BITS {
            OrBit(Shl(w.seen, k, WORD_BITS), 1, i);
            ShlBit(w.seen, k, i, WORD_BITS);
          }
        } else if w.newest.value - s < WORD_BITS {
          var k := w.newest.value - s;
          OrBit(w.seen, Shl(1, k, WORD_BITS), i);
          ShlBit(1, k, i, WORD_BITS);
          if i >= k {
            OneBit(i - k);
          }
        }
      }
    }
  }

  function MarkAll(marks: seq<U64>): Window {
    if marks == [] then FRESH else MarkSeen(MarkAll(marks[..|marks| - 1]), marks[|marks| - 1])
  }

  ghost function Marked(marks: seq<U64>): set<int> {
    set s | s in marks
  }

  lemma {:induction false} MarkAllRepresents(marks: seq<U64>)
    ensures Represents(MarkAll(marks), Marked(marks))
  {
    if marks == [] {
      assert Marked(marks) == {};
    } else {
      hide MarkSeen, Represents;
      var n := |marks| - 1;
      MarkAllRepresents(marks[..n]);
      MarkSeenRepresents(MarkAll(marks[..n]), Marked(marks[..n]), marks[n]);
      assert marks == marks[..n] + [marks[n]];
      assert Marked(marks) == Marked(marks[..n]) + {marks[n]};
    }
  }

  /** After any marks, a number counts as seen exactly when it was marked or has
      fallen 64 or more behind the newest. */
  lemma WindowRefinesSet(marks: seq<U64>, s: U64)
    ensures HasSeen(MarkAll(marks), s)
            <==> s in marks || exists k :: 0 <= k < |marks| && marks[k] - s >= WORD_BITS
  {
    hide MarkSeen;
    var w, marked := MarkAll(marks), Marked(marks);
    MarkAllRepresents(marks);
    HasSeenMeans(w, marked, s);
    forall j | 0 <= j < |marks|
      ensures marks[j] in marked
    {
    }
    if w.newest.Some? {
      var k :| 0 <= k < |marks| && marks[k] == w.newest.value;
    }
  }

  class DtlsReplayWindow {
    var newestSequence: Option<U64>
    var seen: nat

    ghost function View(): Window
      reads this
    {
      Window(newestSequence, seen)
    }

    constructor ()
      ensures View() == FRESH
    {
      newestSequence, seen := None, 0;
    }

    method Has(sequence: U64) returns (b: bool)
      ensures b == HasSeen(View(), sequence)
    {
      if newestSequence.None? {
        return false;
      }
      var newest := newestSequence.value;
      if sequence > newest {
        return false;
      }
      var offset := newest - sequence;
      return offset >= WORD_BITS || Shr(seen, offset) % 2 == 1;
    }

    method Mark(sequence: U64)
      modifies this
      ensures View() == MarkSeen(old(View()), sequence)
    {
      hide Or, Shl;
      if newestSequence.None? {
        newestSequence, seen := Some(sequence), 1;
      } else if sequence > newestSequence.value {
        var shift := sequence - newestSequence.value;
        seen := if shift >= WORD_BITS then 1 else Or(Shl(seen, shift, WORD_BITS), 1);
        newestSequence := Some(sequence);
      } else {
        var offset := newestSequence.value - sequence;
        if offset < WORD_BITS {
          seen := Or(seen, Shl(1, offset, WORD_BITS));
        }
      }
    }
  }
}
