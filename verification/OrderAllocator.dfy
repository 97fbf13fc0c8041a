// Minting a number inside the checkout transaction, and the six attempts around it.

module OrderAllocator {
  import opened MoneyText
  import opened Options
  import opened OrderNumbers

  class Allocator {
    // order_sequences, and the numbers of the orders table.
    var counters: map<string, nat>
    var numbers: seq<string>

    function Stored(day: string): nat
      reads this
    {
      if day in counters then counters[day] else 0
    }

    // INSERT ... ON CONFLICT DO UPDATE SET seq = seq + 1 RETURNING seq.
    method BumpDaySeq(day: string) returns (n: nat)
      modifies this`counters
      ensures n == old(Stored(day)) + 1
      ensures counters == old(counters)[day := n]
    {
      n := if day in counters then counters[day] + 1 else 1;
      counters := counters[day := n];
    }

    method Probe(lo: string, hi: string) returns (top: Option<string>)
      ensures top == TopOf(numbers, lo, hi)
    {
      top := None;
      for i := 0 to |numbers|
        invariant top == TopOf(numbers[..i], lo, hi)
      {
        assert numbers[..i + 1][..i] == numbers[..i];
        if InRange(numbers[i], lo, hi) && (top.None? || !Leads(top.value, numbers[i])) {
          top := Some(numbers[i]);
        }
      }
      assert numbers[..|numbers|] == numbers;
    }

    method NextDocNumber(prefix: string, day: string, next: string, skip: nat) returns (number: string)
      modifies this`counters
      ensures number == Number(prefix + day, Candidate(numbers, prefix + day, prefix + next, old(Stored(day)), skip))
      ensures counters == old(counters)[day := old(Stored(day)) + 1]
    {
      var bumped := BumpDaySeq(day);
      var stem := prefix + day;
      var top := Probe(stem, prefix + next);
      var daySeq := Heal(bumped, top, stem);
      number := stem + Pad4(daySeq + skip);
    }

    // Never mint at or below the highest number in use; an ingest suffix is cut off.
    static method Heal(bumped: nat, top: Option<string>, stem: string) returns (daySeq: nat)
      ensures daySeq == Healed(bumped, top, stem)
    {
      daySeq := bumped;
      if top.Some? && stem <= top.value {
        var tail := top.value[|stem|..];
        var dash := IndexOf(tail, '-');
        tail := tail[..dash];
        var v := Atoi(tail);
        if v.Some? && v.value > daySeq - 1 {
          daySeq := v.value + 1;
        }
      }
    }

    // One attempt: mint, insert, and roll the bump back when the number is taken.
    method Attempt(prefix: string, day: string, next: string, skip: nat) returns (number: Option<string>)
      modifies this
      ensures var c := Number(prefix + day, Candidate(old(numbers), prefix + day, prefix + next, old(Stored(day)), skip));
              if c in old(numbers) then number == None && numbers == old(numbers) && counters == old(counters)
              else number == Some(c) && numbers == old(numbers) + [c] && counters == old(counters)[day := old(Stored(day)) + 1]
    {
      var saved := counters;
      var candidate := NextDocNumber(prefix, day, next, skip);
      if candidate in numbers {
        counters := saved;
        return None;
      }
      numbers := numbers + [candidate];
      number := Some(candidate);
    }

    // The allocation loop of a checkout: up to six attempts, each skipping further ahead.
    method Allocate(prefix: string, day: string, next: string) returns (number: Option<string>)
      requires |day| == |next| && Before(day, next)
      modifies this
      ensures number.None? ==> numbers == old(numbers) && counters == old(counters)
      ensures number.Some? ==> number.value !in old(numbers) && numbers == old(numbers) + [number.value]
                               && counters == old(counters)[day := old(Stored(day)) + 1]
      ensures Tidy(old(numbers), prefix + day, prefix + next) ==>
                number == Some(Number(prefix + day, Candidate(old(numbers), prefix + day, prefix + next, old(Stored(day)), 0)))
    {
      ghost var tidy := Tidy(numbers, prefix + day, prefix + next);
      if tidy {
        FreshNumber(numbers, prefix, day, next, Stored(day), 0);
      }
      for attempt := 0 to 6
        invariant numbers == old(numbers) && counters == old(counters) && (tidy ==> attempt == 0)
      {
        number := Attempt(prefix, day, next, attempt);
        if number.Some? {
          return;
        }
      }
      number := None;
    }
  }

  // On a tidy table no attempt collides.
  lemma FreshNumber(numbers: seq<string>, prefix: string, day: string, next: string, stored: nat, skip: nat)
    requires |day| == |next| && Before(day, next) && Tidy(numbers, prefix + day, prefix + next)
    ensures Number(prefix + day, Candidate(numbers, prefix + day, prefix + next, stored, skip)) !in numbers
  {
    var stem, hi := prefix + day, prefix + next;
    var c := Candidate(numbers, stem, hi, stored, skip);
    MintExceeds(numbers, stem, hi, stored, skip);
    RangeIsTheDay(prefix, day, next, day, Pad4(c));
    assert !Used(numbers, stem, hi, c);
  }
}
