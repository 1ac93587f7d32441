/** The fleet-sizing rules of the balancer: how many simulation workers the
    connected clients call for, and how many bot processes a NUM_BOTS flag
    asks for. */
module Fleet {
  import opened GoStd

  /** Simulation workers needed for `numClients` connected clients: half
      the bit length of the count, squared, and bumped by one when that is
      0 or 1. */
  function RequiredWorkers(numClients: nat): (r: nat)
    ensures r >= 1
  {
    var half := BitLen(numClients) / 2;
    var squared := half * half;
    if squared <= 1 then squared + 1 else squared
  }

  /** The formula's steps: 1 worker for up to 1 client, 2 for 2-7, 4 for
      8-31, 9 for 32-127. */
  lemma RequiredWorkersSteps(c: nat)
    ensures c <= 1 ==> RequiredWorkers(c) == 1
    ensures 2 <= c <= 7 ==> RequiredWorkers(c) == 2
    ensures 8 <= c <= 31 ==> RequiredWorkers(c) == 4
    ensures 32 <= c <= 127 ==> RequiredWorkers(c) == 9
  {
    Pow2Small();
    if c == 0 {
    } else if c == 1 {
      BitLenFromBounds(c, 1);
    } else if c <= 3 {
      BitLenFromBounds(c, 2);
    } else if c <= 7 {
      BitLenFromBounds(c, 3);
    } else if c <= 15 {
      BitLenFromBounds(c, 4);
    } else if c <= 31 {
      BitLenFromBounds(c, 5);
    } else if c <= 63 {
      BitLenFromBounds(c, 6);
    } else if c <= 127 {
      BitLenFromBounds(c, 7);
    }
  }

  /** More clients never call for fewer workers. */
  lemma RequiredWorkersMonotone(a: nat, b: nat)
    requires a <= b
    ensures RequiredWorkers(a) <= RequiredWorkers(b)
  {
    BitLenMonotone(a, b);
    var ha, hb := BitLen(a) / 2, BitLen(b) / 2;
    SquareMonotone(ha, hb);
    var sa, sb := ha * ha, hb * hb;
    assert RequiredWorkers(a) == if sa <= 1 then sa + 1 else sa;
    assert RequiredWorkers(b) == if sb <= 1 then sb + 1 else sb;
    if sb > 1 {
      assert hb >= 2;
      SquareMonotone(2, hb);
    }
  }

  /** The rows of the repository's test table for its own worker-count
      helper, which run from 0 to 32 clients: under 4 clients 1, under 8 4,
      under 32 9, and 16 at 32. */
  function TestTableWorkers(numClients: nat): nat
    requires numClients <= 32
  {
    if numClients < 4 then 1
    else if numClients < 8 then 4
    else if numClients < 32 then 9
    else 16
  }

  /** The inline formula does not meet that table: 2 clients need 2
      workers, not 1; 4 need 2, not 4; 8 need 4, not 9; 32 need 9, not 16. */
  lemma InlineFormulaIsNotTestTable()
    ensures RequiredWorkers(2) == 2 && TestTableWorkers(2) == 1
    ensures RequiredWorkers(4) == 2 && TestTableWorkers(4) == 4
    ensures RequiredWorkers(8) == 4 && TestTableWorkers(8) == 9
    ensures RequiredWorkers(32) == 9 && TestTableWorkers(32) == 16
  {
    Pow2Small();
    BitLenFromBounds(2, 2);
    BitLenFromBounds(4, 3);
    BitLenFromBounds(8, 4);
    BitLenFromBounds(32, 6);
  }

  /** Over the whole range of the table, the inline formula agrees with it
      only for 0 and 1 clients. */
  lemma InlineFormulaMeetsTableOnlyUpToOne(c: nat)
    requires c <= 32
    ensures RequiredWorkers(c) == TestTableWorkers(c) <==> c <= 1
  {
    RequiredWorkersSteps(c);
  }

  /** The number of bot processes a NUM_BOTS value of `target` leaves. */
  function BotTarget(target: int): nat
  {
    if target < 0 then 0 else target
  }
}
