/**
  The packed object header: colour, pin and forwarding address in one word that is changed by
  compare-and-swap.
 */
module Header {

  type Word = bv64

  const WHITE: Word := 0
  const GRAY: Word := 1
  const BLACK: Word := 2

  /** Bits 0 and 1. */
  function Color(w: Word): Word {
    w & 3
  }

  /** Bit 2. */
  function Pinned(w: Word): Word {
    w & 4
  }

  /** Bits 3 to 63: an address that is a multiple of 8. */
  function Forward(w: Word): Word {
    w & 0xFFFF_FFFF_FFFF_FFF8
  }

  predicate Aligned(a: Word) {
    a & 7 == 0
  }

  /** The word with another colour. */
  function Painted(w: Word, color: Word): Word {
    (w & 0xFFFF_FFFF_FFFF_FFFC) | color
  }

  /** The word with a forwarding address installed. */
  function Forwarded(w: Word, addr: Word): Word {
    (w & 3) | addr
  }

  /** The word of a new object. */
  function Fresh(addr: Word): Word {
    addr | WHITE
  }

  lemma PaintedColor(w: Word, color: Word)
    requires color <= 2
    ensures Color(Painted(w, color)) == color
  {
  }

  lemma PaintedForward(w: Word, color: Word)
    requires color <= 2
    ensures Forward(Painted(w, color)) == Forward(w)
  {
  }

  lemma PaintedPin(w: Word, color: Word)
    requires color <= 2
    ensures Pinned(Painted(w, color)) == Pinned(w)
  {
  }

  // Painting changes the colour and nothing else.
  lemma PaintedFields(w: Word, color: Word)
    requires color <= 2
    ensures Color(Painted(w, color)) == color
    ensures Forward(Painted(w, color)) == Forward(w)
    ensures Pinned(Painted(w, color)) == Pinned(w)
  {
    hide Color, Forward, Pinned, Painted;
    PaintedColor(w, color);
    PaintedForward(w, color);
    PaintedPin(w, color);
  }

  lemma ForwardedColor(w: Word, addr: Word)
    requires Aligned(addr)
    ensures Color(Forwarded(w, addr)) == Color(w)
  {
  }

  lemma ForwardedForward(w: Word, addr: Word)
    requires Aligned(addr)
    ensures Forward(Forwarded(w, addr)) == addr
  {
  }

  lemma ForwardedPin(w: Word, addr: Word)
    requires Aligned(addr)
    ensures Pinned(Forwarded(w, addr)) == 0
  {
  }

  // Forwarding keeps the colour; a pin is not carried over.
  lemma ForwardedFields(w: Word, addr: Word)
    requires Aligned(addr)
    ensures Color(Forwarded(w, addr)) == Color(w)
    ensures Forward(Forwarded(w, addr)) == addr
    ensures Pinned(Forwarded(w, addr)) == 0
  {
    hide Color, Forward, Pinned, Forwarded, Aligned;
    ForwardedColor(w, addr);
    ForwardedForward(w, addr);
    ForwardedPin(w, addr);
  }

  lemma FreshFields(addr: Word)
    requires Aligned(addr)
    ensures Color(Fresh(addr)) == WHITE && Forward(Fresh(addr)) == addr && Pinned(Fresh(addr)) == 0
  {
  }

  // The three fields make up the word.
  lemma FieldsDetermineWord(v: Word, w: Word)
    requires Color(v) == Color(w) && Forward(v) == Forward(w) && Pinned(v) == Pinned(w)
    ensures v == w
  {
  }

  lemma PinBits(w: bv64)
    ensures (w | 4) & 4 == 4 && (w | 4) & 3 == w & 3
    ensures (w | 4) & 0xFFFF_FFFF_FFFF_FFF8 == w & 0xFFFF_FFFF_FFFF_FFF8
    ensures (w & 0xFFFF_FFFF_FFFF_FFFB) & 4 == 0 && (w & 0xFFFF_FFFF_FFFF_FFFB) & 3 == w & 3
    ensures (w & 0xFFFF_FFFF_FFFF_FFFB) & 0xFFFF_FFFF_FFFF_FFF8 == w & 0xFFFF_FFFF_FFFF_FFF8
  {
  }

  /** The outcome of an installation: the address installed, or the one that was there. */
  datatype Install = Installed(addr: Word) | AlreadyForwarded(addr: Word)

  /** A header nobody else is using. */
  class ObjectHeader {
    var bits: Word
    const payloadSize: nat

    constructor (self: Word, payloadSize: nat)
      requires Aligned(self)
      ensures this.payloadSize == payloadSize && Color(bits) == WHITE && Forward(bits) == self && Pinned(bits) == 0
    {
      bits := Fresh(self);
      this.payloadSize := payloadSize;
      FreshFields(self);
    }

    method CompareExchange(expected: Word, desired: Word) returns (ok: bool, actual: Word)
      modifies this
      ensures ok <==> old(bits) == expected
      ensures actual == old(bits)
      ensures bits == if ok then desired else old(bits)
    {
      actual := bits;
      ok := actual == expected;
      if ok {
        bits := desired;
      }
    }

    method TryShadeGray() returns (won: bool)
      modifies this
      ensures won <==> Color(old(bits)) == WHITE
      ensures bits == if won then Painted(old(bits), GRAY) else old(bits)
      ensures won ==> old(bits) & 3 == 0 && bits & 3 == 1
    {
      var seen := bits;
      if Color(seen) != WHITE {
        return false;
      }
      var actual;
      won, actual := CompareExchange(seen, Painted(seen, GRAY));
    }

    method ShadeBlack()
      requires Color(bits) == GRAY
      modifies this
      ensures bits == Painted(old(bits), BLACK) && bits & 3 == 2
    {
      bits := Painted(bits, BLACK);
    }

    method ResetWhite()
      modifies this
      ensures bits == Painted(old(bits), WHITE) && bits & 3 == 0
    {
      bits := Painted(bits, WHITE);
    }

    method Pin()
      modifies this
      ensures Pinned(bits) != 0 && Color(bits) == Color(old(bits)) && Forward(bits) == Forward(old(bits))
    {
      PinBits(bits);
      bits := bits | 4;
    }

    method Unpin()
      modifies this
      ensures Pinned(bits) == 0 && Color(bits) == Color(old(bits)) && Forward(bits) == Forward(old(bits))
    {
      PinBits(bits);
      bits := bits & 0xFFFF_FFFF_FFFF_FFFB;
    }

    method TryInstallForwarding(oldAddr: Word, newAddr: Word) returns (r: Install)
      requires Aligned(newAddr)
      modifies this
      ensures r == if Forward(old(bits)) == oldAddr then Installed(newAddr) else AlreadyForwarded(Forward(old(bits)))
      ensures bits == if r.Installed? then Forwarded(old(bits), newAddr) else old(bits)
    {
      var current := bits;
      var done := false;
      r := Installed(newAddr);
      while !done
        invariant !done ==> current == bits == old(bits) && r == Installed(newAddr)
        invariant done
                ==> r == (if Forward(old(bits)) == oldAddr then Installed(newAddr)
                          else AlreadyForwarded(Forward(old(bits))))
        invariant done ==> bits == if r.Installed? then Forwarded(old(bits), newAddr) else old(bits)
        decreases !done
      {
        if Forward(current) != oldAddr {
          r, done := AlreadyForwarded(Forward(current)), true;
        } else {
          done, current := CompareExchange(current, Forwarded(current, newAddr));
        }
      }
    }
  }
}
