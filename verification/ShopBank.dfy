/** The money a shopkeeper has to hand and the money the shop has put away. */
module ShopBank {
  const MIN_OUTSIDE_BANK := 5000
  const MAX_OUTSIDE_BANK := 15000

  class Till {
    const usesBank: bool
    var gold: int
    var bank: int

    constructor (usesBank: bool, gold: int)
      ensures this.usesBank == usesBank && this.gold == gold && bank == 0
    {
      this.usesBank, this.gold, bank := usesBank, gold, 0;
    }

    /** SettleShopBank: no coin is made or lost, too much is put away where there is a bank to put
        it in, and too little is made up as far as the bank goes, flag or no flag. */
    method Settle()
      modifies `gold, `bank
      ensures gold + bank == old(gold + bank)
      ensures old(gold) > MAX_OUTSIDE_BANK ==> gold == if usesBank then MAX_OUTSIDE_BANK else old(gold)
      ensures MIN_OUTSIDE_BANK <= old(gold) <= MAX_OUTSIDE_BANK ==> gold == old(gold)
      ensures old(gold) < MIN_OUTSIDE_BANK ==> gold == MAX_OUTSIDE_BANK || (bank == 0 && gold <= MAX_OUTSIDE_BANK)
      ensures old(bank) >= 0 ==> bank >= 0
      ensures (gold, bank) == Settled(usesBank, old(gold), old(bank))
    {
      if usesBank && gold > MAX_OUTSIDE_BANK {
        bank := bank + (gold - MAX_OUTSIDE_BANK);
        gold := MAX_OUTSIDE_BANK;
      }
      if gold < MIN_OUTSIDE_BANK {
        var drawn := if MAX_OUTSIDE_BANK - gold < bank then MAX_OUTSIDE_BANK - gold else bank;
        bank := bank - drawn;
        gold := gold + drawn;
      }
    }
  }

  function Settled(usesBank: bool, gold: int, bank: int): (int, int) {
    if usesBank && gold > MAX_OUTSIDE_BANK then (MAX_OUTSIDE_BANK, bank + gold - MAX_OUTSIDE_BANK)
    else if gold < MIN_OUTSIDE_BANK then
      var drawn := if MAX_OUTSIDE_BANK - gold < bank then MAX_OUTSIDE_BANK - gold else bank;
      (gold + drawn, bank - drawn)
    else (gold, bank)
  }

  datatype Op = Trade(gained: int) | Settle

  function After(usesBank: bool, money: (int, int), ops: seq<Op>): (int, int) {
    if ops == [] then money
    else
      var (gold, bank) := After(usesBank, money, ops[..|ops| - 1]);
      match ops[|ops| - 1]
      case Trade(gained) => (gold + gained, bank)
      case Settle => Settled(usesBank, gold, bank)
  }

  function Gained(ops: seq<Op>): int {
    if ops == [] then 0
    else Gained(ops[..|ops| - 1]) + match ops[|ops| - 1] case Trade(gained) => gained case Settle => 0
  }

  /** Over any trading, settled whenever: the two together are what came in, and the bank is never
      overdrawn. */
  lemma {:induction false} NothingIsLost(usesBank: bool, money: (int, int), ops: seq<Op>)
    requires money.1 >= 0
    ensures var (gold, bank) := After(usesBank, money, ops);
      gold + bank == money.0 + money.1 + Gained(ops) && bank >= 0
  {
    if ops != [] {
      NothingIsLost(usesBank, money, ops[..|ops| - 1]);
    }
  }
}
