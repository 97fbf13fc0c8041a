// Customer operations outside any order: when they go through, and what moves by how much.

module CustomerMoves {
  import opened Tables
  import opened Orders

  // Customer c's columns become those of k, the ledger gains one loose row for c, and
  // nothing else in the database changes.
  predicate Moved(s: Shop, t: Shop, c: int, k: Customer, kind: Kind, amount: int) {
    && c in s.customers
    && t == s.(customers := s.customers[c := k], ledger := s.ledger + [Row(c, NO_ORDER, kind, amount, 0, Plain)])
  }

  // A payment goes through exactly against an active customer's debt, and takes
  // exactly that much off it.
  lemma PaymentMoves(s: Shop, c: int, amount: int)
    ensures var tx := CustomerPayment(s, c, amount);
            && (tx.out == Ok <==> c in s.customers && s.customers[c].active && 0 < amount <= s.customers[c].balance)
            && (tx.out == Ok ==> && Moved(s, tx.shop, c, s.customers[c].(balance := s.customers[c].balance - amount), Payment, -amount)
                                 && tx.shop.customers[c].balance >= 0)
            && (tx.out != Ok ==> tx.shop == s)
            && (tx.out == Err(Overpayment) <==> amount > 0 && c in s.customers && s.customers[c].active && s.customers[c].balance < amount)
            && (tx.out == Err(NotFound) <==> amount > 0 && c !in s.customers)
  {
  }

  // A correction needs a note and a customer on file, and has no limit.
  lemma AdjustmentMoves(s: Shop, c: int, amount: int, noted: bool)
    ensures var tx := CustomerAdjustment(s, c, amount, noted);
            && (tx.out == Ok <==> noted && c in s.customers)
            && (tx.out == Ok ==> Moved(s, tx.shop, c, s.customers[c].(balance := s.customers[c].balance + amount), Adjustment, amount))
            && (tx.out != Ok ==> tx.shop == s)
            && (tx.out == Err(NotFound) <==> noted && c !in s.customers)
  {
  }

  lemma TopUpMoves(s: Shop, c: int, amount: int)
    ensures var tx := TopUp(s, c, amount);
            && (tx.out == Ok <==> c in s.customers && s.customers[c].active && 0 < amount <= 1_000_000_000_000)
            && (tx.out == Ok ==> Moved(s, tx.shop, c, s.customers[c].(credit := s.customers[c].credit + amount), CreditTopup, amount))
            && (tx.out != Ok ==> tx.shop == s)
            && (tx.out == Err(NotFound) <==> 0 < amount <= 1_000_000_000_000 && c !in s.customers)
  {
  }

  // A card with money on it is emptied for an active customer, whose store credit grows
  // by twice what was on it while the ledger says once.
  lemma CardMoves(s: Shop, k: nat, c: int)
    ensures var tx := RedeemCard(s, k, c);
            && (tx.out == Ok <==> k < |s.cards| && s.cards[k].status == CardActive && s.cards[k].remaining > 0
                                  && c in s.customers && s.customers[c].active)
            && (tx.out == Ok ==>
                  && tx.shop.cards == s.cards[k := s.cards[k].(status := CardEmpty, remaining := 0, holder := c)]
                  && Moved(s, tx.shop.(cards := s.cards), c,
                           s.customers[c].(credit := s.customers[c].credit + 2 * s.cards[k].remaining),
                           CreditTopup, s.cards[k].remaining))
            && (tx.out != Ok ==> tx.shop == s)
            && (tx.out == Err(NotFound) <==> k >= |s.cards| || (s.cards[k].status == CardActive && s.cards[k].remaining > 0 && c !in s.customers))
  {
  }

  // A new customer starts with nothing; one on file is left alone.
  lemma NewCustomerMoves(s: Shop, c: int)
    ensures var t := NewCustomer(s, c);
            && t == s.(customers := t.customers)
            && (c != NO_CUSTOMER ==> c in t.customers)
            && (forall d :: d in t.customers <==> d in s.customers || (d == c && c != NO_CUSTOMER))
            && (forall d :: d in t.customers ==> t.customers[d] == if d in s.customers then s.customers[d] else Customer(0, 0, 0, true))
  {
  }

  lemma SetActiveMoves(s: Shop, c: int, active: bool)
    ensures var t := SetActive(s, c, active);
            && t == s.(customers := t.customers) && t.customers.Keys == s.customers.Keys
            && forall d :: d in s.customers ==> t.customers[d] == if d == c then s.customers[d].(active := active) else s.customers[d]
  {
  }
}
