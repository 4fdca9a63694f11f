/** Reconciling the firewall's drop rules with the list of blocked addresses. */
module BlockList {
  /**
  How often the difference asks for an address to be unblocked: surplus copies, and every copy if it is not
  listed.
  */
  function Deletions(rules: multiset<string>, listed: seq<string>, ip: string): nat {
    (if rules[ip] > 1 then rules[ip] - 1 else 0) + (if ip in listed then 0 else rules[ip])
  }

  /** array_count_values: the distinct values in order of appearance, with their counts. */
  method CountValues(xs: seq<string>) returns (keys: seq<string>, counts: map<string, nat>)
    ensures forall x :: x in keys <==> x in xs
    ensures Unrepeated(keys)
    ensures forall x :: x in counts <==> x in xs
    ensures forall x :: x in counts ==> counts[x] == multiset(xs)[x]
  {
    keys, counts := [], map[];
    for k := 0 to |xs|
      invariant forall x :: x in keys <==> x in xs[..k]
      invariant Unrepeated(keys)
      invariant forall x :: x in counts <==> x in xs[..k]
      invariant forall x :: x in counts ==> counts[x] == multiset(xs[..k])[x]
    {
      assert xs[..k + 1] == xs[..k] + [xs[k]];
      assert xs[k] !in xs[..k] ==> multiset(xs[..k])[xs[k]] == 0;
      if xs[k] in counts {
        counts := counts[xs[k] := counts[xs[k]] + 1];
      } else {
        keys := keys + [xs[k]];
        counts := counts[xs[k] := 1];
      }
    }
    assert xs[..|xs|] == xs;
  }

  method Repeat(x: string, n: nat) returns (r: seq<string>)
    ensures multiset(r) == multiset{}[x := n]
  {
    r := [];
    for i := 0 to n
      invariant multiset(r) == multiset{}[x := i]
    {
      r := r + [x];
    }
  }

  // The three loops of the difference.

  method Surplus(actual: seq<string>) returns (del: seq<string>)
    ensures forall ip :: multiset(del)[ip] == if multiset(actual)[ip] > 1 then multiset(actual)[ip] - 1 else 0
  {
    del := [];
    var keys, counts := CountValues(actual);
    for k := 0 to |keys|
      invariant forall ip :: multiset(del)[ip]
                          == if ip in keys[..k] && multiset(actual)[ip] > 1 then multiset(actual)[ip] - 1 else 0
    {
      assert keys[..k + 1] == keys[..k] + [keys[k]];
      assert keys[k] in keys && keys[k] !in keys[..k];
      if counts[keys[k]] > 1 {
        var copies := Repeat(keys[k], counts[keys[k]] - 1);
        del := del + copies;
      }
    }
    assert keys[..|keys|] == keys;
    assert forall ip :: multiset(actual)[ip] > 0 ==> ip in keys;
  }

  method Missing(actual: seq<string>, listed: seq<string>) returns (add: seq<string>)
    requires Unrepeated(listed)
    ensures add == Absent(multiset(actual), listed)
    ensures forall ip :: multiset(add)[ip] == Additions(multiset(actual), listed, ip)
  {
    add := [];
    for k := 0 to |listed|
      invariant add == Absent(multiset(actual), listed[..k])
    {
      assert listed[..k + 1][..k] == listed[..k];
      if listed[k] !in actual {
        add := add + [listed[k]];
      }
    }
    assert listed[..|listed|] == listed;
    forall ip { AbsentOnce(multiset(actual), listed, ip); }
  }

  lemma {:induction false} AbsentOnce(rules: multiset<string>, listed: seq<string>, ip: string)
    requires Unrepeated(listed)
    ensures multiset(Absent(rules, listed))[ip] == Additions(rules, listed, ip)
  {
    if listed != [] {
      var front, last := listed[..|listed| - 1], listed[|listed| - 1];
      assert listed == front + [last];
      AbsentOnce(rules, front, ip);
      assert last !in front;
    }
  }

  method Unlisted(actual: seq<string>, listed: seq<string>) returns (del: seq<string>)
    ensures forall ip :: multiset(del)[ip] == if ip in listed then 0 else multiset(actual)[ip]
  {
    del := [];
    for k := 0 to |actual|
      invariant forall ip :: multiset(del)[ip] == if ip in listed then 0 else multiset(actual[..k])[ip]
    {
      assert actual[..k + 1] == actual[..k] + [actual[k]];
      if actual[k] !in listed {
        del := del + [actual[k]];
      }
    }
    assert actual[..|actual|] == actual;
  }

  // ---------------------------------------------------------------- addresses and their spellings

  // Which strings are addresses, and how the firewall prints an address that it was given in any spelling.
  datatype Format = Format(isAddress: string -> bool, printed: string -> string)

  /** The firewall prints an address as an address, and what it prints it prints again in the same way. */
  ghost predicate WellFormed(f: Format) {
    forall ip :: f.isAddress(ip) ==> f.isAddress(f.printed(ip)) && f.printed(f.printed(ip)) == f.printed(ip)
  }

  /** Every address among the rules is spelled as the firewall prints it. */
  ghost predicate Canonical(rules: multiset<string>, f: Format) {
    forall ip :: rules[ip] > 0 && f.isAddress(ip) ==> f.printed(ip) == ip
  }

  /** How many of the strings are addresses that the firewall prints like this. */
  function Spellings(xs: seq<string>, f: Format, ip: string): nat {
    if xs == [] then 0
    else
      var last := xs[|xs| - 1];
      Spellings(xs[..|xs| - 1], f, ip) + (if f.isAddress(last) && f.printed(last) == ip then 1 else 0)
  }

  lemma SpellingsSnoc(xs: seq<string>, f: Format, ip: string, x: string)
    ensures Spellings(xs + [x], f, ip) == Spellings(xs, f, ip) + (if f.isAddress(x) && f.printed(x) == ip then 1 else 0)
  {
    assert (xs + [x])[..|xs|] == xs;
  }

  class Firewall {
    var rules: multiset<string>

    /** Delete one rule for each address, if there is one. */
    method Unblock(del: seq<string>, f: Format)
      modifies this
      ensures forall ip :: rules[ip] == Left(old(rules)[ip], Spellings(del, f, ip))
    {
      for k := 0 to |del|
        invariant forall ip :: rules[ip] == Left(old(rules)[ip], Spellings(del[..k], f, ip))
      {
        assert del[..k + 1] == del[..k] + [del[k]];
        forall ip { SpellingsSnoc(del[..k], f, ip, del[k]); }
        if f.isAddress(del[k]) && f.printed(del[k]) in rules {
          rules := rules - multiset{f.printed(del[k])};
        }
      }
      assert del[..|del|] == del;
    }

    /** Insert one rule for each address; the firewall keeps it in its own spelling. */
    method Block(add: seq<string>, f: Format)
      requires WellFormed(f) && Canonical(rules, f)
      modifies this
      ensures Canonical(rules, f)
      ensures forall ip :: rules[ip] == old(rules)[ip] + Spellings(add, f, ip)
    {
      for k := 0 to |add|
        invariant Canonical(rules, f)
        invariant forall ip :: rules[ip] == old(rules)[ip] + Spellings(add[..k], f, ip)
      {
        assert add[..k + 1] == add[..k] + [add[k]];
        forall ip { SpellingsSnoc(add[..k], f, ip, add[k]); }
        if f.isAddress(add[k]) {
          rules := rules + multiset{f.printed(add[k])};
        }
      }
      assert add[..|add|] == add;
    }

    /** One run: read the rules, take the difference, unblock, block.  A string that is no address is never touched. */
    method Reconcile(actual: seq<string>, listed: seq<string>, f: Format) returns (add: seq<string>, del: seq<string>)
      requires multiset(actual) == rules && WellFormed(f) && Canonical(rules, f) && Unrepeated(listed)
      modifies this
      ensures Canonical(rules, f)
      ensures forall ip :: multiset(del)[ip] == Deletions(old(rules), listed, ip)
      ensures forall ip :: multiset(add)[ip] == Additions(old(rules), listed, ip)
      ensures forall ip :: rules[ip] == Reconciled(old(rules), listed, f, ip)
    {
      ghost var before := rules;
      assert forall ip :: ip in actual <==> rules[ip] > 0;
      var surplus := Surplus(actual);
      add := Missing(actual, listed);
      var unlisted := Unlisted(actual, listed);
      del := surplus + unlisted;
      Unblock(del, f);
      forall ip ensures rules[ip] == Kept(before, listed, f, ip) { KeptAfterUnblock(before, listed, f, del, ip); }
      Block(add, f);
      forall ip ensures rules[ip] == Reconciled(before, listed, f, ip) { ReconciledInTwo(before, listed, f, add, ip); }
    }
  }

  predicate Unrepeated(xs: seq<string>) { forall i, j :: 0 <= i < j < |xs| ==> xs[i] != xs[j] }

  /** What is left of so many rules after n deletions; deleting a rule that is not there does nothing. */
  function Left(count: nat, n: nat): nat { if n <= count then count - n else 0 }

  /** How often the difference asks for an address to be blocked. */
  function Additions(rules: multiset<string>, listed: seq<string>, ip: string): nat {
    if ip in listed && rules[ip] == 0 then 1 else 0
  }

  /** What the deletions leave: one rule of every listed address that had any. */
  function Kept(rules: multiset<string>, listed: seq<string>, f: Format, ip: string): nat {
    if !f.isAddress(ip) then rules[ip] else if ip in listed && rules[ip] > 0 then 1 else 0
  }

  /**
  After a run every address has one rule for each listed spelling of it, and no rule if it is not listed in any; the
  rest is as it was.
  */
  function Reconciled(rules: multiset<string>, listed: seq<string>, f: Format, ip: string): nat {
    if !f.isAddress(ip) then rules[ip] else Spellings(listed, f, ip)
  }

  // ---------------------------------------------------------------- what a run does to one address

  lemma {:induction false} SpellingsOfCanonical(xs: seq<string>, f: Format, ip: string)
    requires f.isAddress(ip) && f.printed(ip) == ip
    requires forall x :: x in xs && f.isAddress(x) ==> f.printed(x) == x
    ensures Spellings(xs, f, ip) == multiset(xs)[ip]
  {
    if xs != [] {
      var front, last := xs[..|xs| - 1], xs[|xs| - 1];
      assert xs == front + [last];
      SpellingsOfCanonical(front, f, ip);
    }
  }

  lemma {:induction false} NoSpellings(xs: seq<string>, f: Format, ip: string)
    requires forall x :: x in xs && f.isAddress(x) ==> f.printed(x) != ip
    ensures Spellings(xs, f, ip) == 0
  {
    if xs != [] { NoSpellings(xs[..|xs| - 1], f, ip); }
  }

  lemma KeptAfterUnblock(rules: multiset<string>, listed: seq<string>, f: Format, del: seq<string>, ip: string)
    requires WellFormed(f) && Canonical(rules, f)
    requires forall x :: multiset(del)[x] == Deletions(rules, listed, x)
    ensures Left(rules[ip], Spellings(del, f, ip)) == Kept(rules, listed, f, ip)
  {
    forall x | x in del && f.isAddress(x) ensures rules[x] > 0 && f.printed(x) == x { assert multiset(del)[x] > 0; }
    if f.isAddress(ip) && f.printed(ip) == ip {
      SpellingsOfCanonical(del, f, ip);
    } else {
      NoSpellings(del, f, ip);
    }
  }

  /** The listed spellings of an address: itself, if it is listed and has a rule, and the spellings that have none. */
  lemma {:induction false} SpellingsInTwo(rules: multiset<string>, xs: seq<string>, f: Format, add: seq<string>,
                                          ip: string)
    requires WellFormed(f) && Canonical(rules, f) && f.isAddress(ip) && Unrepeated(xs)
    requires add == Absent(rules, xs)
    ensures Spellings(xs, f, ip) == Spellings(add, f, ip) + Kept(rules, xs, f, ip)
  {
    if xs != [] {
      var front, last := xs[..|xs| - 1], xs[|xs| - 1];
      assert xs == front + [last];
      SpellingsInTwo(rules, front, f, Absent(rules, front), ip);
      if rules[last] == 0 {
        SpellingsSnoc(Absent(rules, front), f, ip, last);
      } else {
        assert Absent(rules, front) + [] == Absent(rules, front);
      }
    }
  }

  /** The listed strings that have no rule. */
  function Absent(rules: multiset<string>, xs: seq<string>): seq<string> {
    if xs == [] then []
    else Absent(rules, xs[..|xs| - 1]) + (if rules[xs[|xs| - 1]] == 0 then [xs[|xs| - 1]] else [])
  }

  lemma ReconciledInTwo(rules: multiset<string>, listed: seq<string>, f: Format, add: seq<string>, ip: string)
    requires WellFormed(f) && Canonical(rules, f) && Unrepeated(listed) && add == Absent(rules, listed)
    ensures Kept(rules, listed, f, ip) + Spellings(add, f, ip) == Reconciled(rules, listed, f, ip)
  {
    if f.isAddress(ip) {
      SpellingsInTwo(rules, listed, f, add, ip);
    } else {
      NoSpellings(add, f, ip);
    }
  }

  // ---------------------------------------------------------------- does a second run find anything to do

  /** The difference asks for nothing about this string. */
  predicate Agrees(rules: multiset<string>, listed: seq<string>, ip: string) {
    Deletions(rules, listed, ip) == 0 && Additions(rules, listed, ip) == 0
  }

  /** The difference of a run is empty. */
  ghost predicate NothingToDo(rules: multiset<string>, listed: seq<string>) { forall ip :: Agrees(rules, listed, ip) }

  /**
  With every listed address spelled as the firewall prints it, each has exactly one rule and no other address
  has any.
  */
  lemma OneRuleEach(rules: multiset<string>, listed: seq<string>, f: Format, ip: string)
    requires WellFormed(f) && Unrepeated(listed) && f.isAddress(ip)
    requires forall x :: x in listed && f.isAddress(x) ==> f.printed(x) == x
    ensures Reconciled(rules, listed, f, ip) == if ip in listed then 1 else 0
  {
    if f.printed(ip) == ip {
      SpellingsOfCanonical(listed, f, ip);
      CountOf(listed, ip);
    } else {
      NoSpellings(listed, f, ip);
    }
  }

  lemma {:induction false} CountOf(xs: seq<string>, x: string)
    requires Unrepeated(xs)
    ensures multiset(xs)[x] == if x in xs then 1 else 0
  {
    if xs != [] {
      var front, last := xs[..|xs| - 1], xs[|xs| - 1];
      assert xs == front + [last];
      CountOf(front, x);
    }
  }

  /** An address listed in another spelling never has a rule of that spelling, so every run inserts it anew. */
  lemma OtherSpellingHasNoRule(rules: multiset<string>, listed: seq<string>, f: Format, ip: string)
    requires WellFormed(f) && f.isAddress(ip) && f.printed(ip) != ip
    ensures Reconciled(rules, listed, f, ip) == 0
  {
    NoSpellings(listed, f, ip);
  }

  /**
  Is there anything left to do?  A second run finds nothing if and only if every listed address is spelled as the
  firewall prints it, and nothing stands in the way that is no address: no such listed string without a rule, and no
  such rule that is surplus or not listed.
  */
  lemma SecondRunIsEmptyIff(rules: multiset<string>, after: multiset<string>, listed: seq<string>, f: Format)
    requires WellFormed(f) && Unrepeated(listed)
    requires forall ip :: after[ip] == Reconciled(rules, listed, f, ip)
    ensures NothingToDo(after, listed)
       <==> (forall ip :: ip in listed && f.isAddress(ip) ==> f.printed(ip) == ip)
            && (forall ip :: !f.isAddress(ip) ==> Agrees(rules, listed, ip))
  {
    if NothingToDo(after, listed) {
      forall ip | ip in listed && f.isAddress(ip) ensures f.printed(ip) == ip {
        assert Agrees(after, listed, ip);
        if f.printed(ip) != ip { OtherSpellingHasNoRule(rules, listed, f, ip); }
      }
      forall ip | !f.isAddress(ip) ensures Agrees(rules, listed, ip) {
        assert after[ip] == rules[ip] && Agrees(after, listed, ip);
      }
    }
    if (forall ip :: ip in listed && f.isAddress(ip) ==> f.printed(ip) == ip)
       && forall ip :: !f.isAddress(ip) ==> Agrees(rules, listed, ip) {
      forall ip ensures Agrees(after, listed, ip) {
        assert after[ip] == Reconciled(rules, listed, f, ip);
        if f.isAddress(ip) { OneRuleEach(rules, listed, f, ip); }
      }
    }
  }

  /** An address listed in capitals is deleted in the firewall's spelling and added in its own, in every run. */
  lemma CapitalsNeverSettle(after: multiset<string>, rules: multiset<string>, f: Format)
    requires WellFormed(f) && f.isAddress("2001:DB8::1") && f.printed("2001:DB8::1") == "2001:db8::1"
    requires forall ip :: after[ip] == Reconciled(rules, ["2001:DB8::1"], f, ip)
    ensures Deletions(after, ["2001:DB8::1"], "2001:db8::1") == 1
            && Additions(after, ["2001:DB8::1"], "2001:DB8::1") == 1
  {
    var listed := ["2001:DB8::1"];
    assert f.isAddress("2001:db8::1");
    assert listed[..0] == [] && Spellings([], f, "2001:db8::1") == 0;
    assert Spellings(listed, f, "2001:db8::1") == 1;
    OtherSpellingHasNoRule(rules, listed, f, "2001:DB8::1");
  }
}
