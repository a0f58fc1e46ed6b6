/** The ring of preallocated launch bodies shared with the sender threads (`fill_body` in `lib.rs`). */
module BodyRing {
  import opened Prelude
  import opened Template

  /** A shared body. `holders` counts the senders that have not let go of it. */
  class TxBuf {
    var tx: seq<Byte>
    var len: nat
    var holders: nat

    predicate Valid()
      reads this
    {
      |tx| == MAX_TX && len <= MAX_TX
    }

    function Body(): seq<Byte>
      requires Valid()
      reads this
    {
      tx[..len]
    }

    constructor ()
      ensures Valid() && len == 0 && holders == 0
    {
      tx, len, holders := seq(MAX_TX, _ => 0), 0, 0;
    }

    method Fill(template: seq<Byte>)
      requires Valid() && |template| <= MAX_TX
      modifies this`len, this`tx
      ensures Valid() && Body() == template
    {
      len := |template|;
      tx := template + tx[len..];
    }
  }

  class Ring {
    var slots: seq<TxBuf>
    var cursor: nat

    predicate Valid()
      reads this, slots
    {
      && cursor < |slots|
      && (forall i :: 0 <= i < |slots| ==> slots[i].Valid())
      && (forall i, j :: 0 <= i < j < |slots| ==> slots[i] != slots[j])
    }

    /**
     Writes the body of a launch and hands it out. A slot that a sender still holds is replaced, not
     overwritten, so every body in `held` keeps its bytes.
     */
    method FillBody(template: seq<Byte>, ghost held: set<TxBuf>) returns (body: TxBuf)
      requires Valid() && |template| <= MAX_TX
      requires forall b :: b in held ==> b.Valid() && b.holders > 0
      modifies this, slots[cursor]
      ensures Valid()
      ensures body.Valid() && body.Body() == template && body.holders == 1 && body !in held
      ensures slots == old(slots)[old(cursor) := body]
      ensures cursor == if old(cursor) + 1 == |slots| then 0 else old(cursor) + 1
      ensures if old(slots[cursor].holders) == 0 then body == old(slots[cursor]) else fresh(body)
      ensures forall b :: b in held ==> b.Valid() && b.holders == old(b.holders) && b.Body() == old(b.Body())
    {
      var idx := cursor;
      cursor := cursor + 1;
      if cursor == |slots| {
        cursor := 0;
      }
      body := slots[idx];
      if body.holders != 0 {
        body := new TxBuf();
        slots := slots[idx := body];
      }
      body.Fill(template);
      body.holders := 1;
    }
  }
}
