/** Reconciling a VM's remote IP set and rule list with what is wanted.
    `canon` stands for canonicalIPSetCIDR, which rests on Go's address parser; "" means the entry is skipped. */
module Firewall {

  // ---- the IP set ----

  /** The `have` map: canonical form to the spelling PVE reported, the last one if there are several. */
  function Have(canon: string -> string, raws: seq<string>): (m: map<string, string>)
    ensures forall k :: k in m ==> k != "" && m[k] in raws && canon(m[k]) == k
    ensures forall r :: r in raws && canon(r) != "" ==> canon(r) in m
    ensures forall i :: 0 <= i < |raws| && canon(raws[i]) != "" && (forall j :: i < j < |raws| ==> canon(raws[j]) != canon(raws[i])) ==>
              m[canon(raws[i])] == raws[i]
  {
    if raws == [] then map[]
    else
      var last := raws[|raws| - 1];
      var before := Have(canon, raws[..|raws| - 1]);
      assert raws == raws[..|raws| - 1] + [last];
      if canon(last) == "" then before else before[canon(last) := last]
  }

  function Want(canon: string -> string, entries: seq<string>): set<string> {
    set e | e in entries && canon(e) != "" :: canon(e)
  }

  /** The remote set after the POST loop; posting an entry that exists is answered with an error that is ignored. */
  function Posted(canon: string -> string, have: map<string, string>, raws: seq<string>, entries: seq<string>): seq<string>
    decreases |entries|
  {
    if entries == [] then raws
    else
      var before := Posted(canon, have, raws, entries[..|entries| - 1]);
      var c := canon(entries[|entries| - 1]);
      if c == "" || c in have || c in before then before else before + [c]
  }

  function Dead(have: map<string, string>, want: set<string>): set<string> {
    set k | k in have && k !in want :: have[k]
  }

  function Without(raws: seq<string>, dead: set<string>): (r: seq<string>)
    ensures forall x :: x in r <==> x in raws && x !in dead
  {
    if raws == [] then []
    else if raws[|raws| - 1] in dead then Without(raws[..|raws| - 1], dead)
    else Without(raws[..|raws| - 1], dead) + [raws[|raws| - 1]]
  }

  /** ensureVMIPSet when every call succeeds. */
  function Reconcile(canon: string -> string, raws: seq<string>, entries: seq<string>): seq<string> {
    var have := Have(canon, raws);
    Without(Posted(canon, have, raws, entries), Dead(have, Want(canon, entries)))
  }

  /** Canonical forms are their own canonical form. */
  ghost predicate Idempotent(canon: string -> string, entries: seq<string>) {
    forall e :: e in entries ==> canon(canon(e)) == canon(e)
  }

  /** Two spellings of one unwanted entry. */
  ghost predicate Twins(canon: string -> string, raws: seq<string>, entries: seq<string>) {
    exists a, b :: a in raws && b in raws && a != b && canon(a) == canon(b) && canon(a) != "" && canon(a) !in Want(canon, entries)
  }

  /** The remote set says exactly what is wanted. */
  ghost predicate InSync(canon: string -> string, raws: seq<string>, entries: seq<string>) {
    && (forall r :: r in raws && canon(r) != "" ==> canon(r) in Want(canon, entries))
    && (forall w :: w in Want(canon, entries) ==> exists r :: r in raws && canon(r) == w)
  }

  lemma {:induction false} PostedEntries(canon: string -> string, have: map<string, string>, raws: seq<string>, entries: seq<string>)
    ensures var p := Posted(canon, have, raws, entries);
            && (forall r :: r in raws ==> r in p)
            && (forall r :: r in p && r !in raws ==> r in Want(canon, entries))
            && (forall w :: w in Want(canon, entries) ==> w in have || w in p)
    decreases |entries|
  {
    if entries != [] {
      var init, last := entries[..|entries| - 1], entries[|entries| - 1];
      PostedEntries(canon, have, raws, init);
      assert entries == init + [last];
      assert forall w :: w in Want(canon, entries) <==> w in Want(canon, init) || (w == canon(last) && w != "");
    }
  }

  /** Entries that are already right stay, as they are spelled. */
  lemma CorrectEntriesStay(canon: string -> string, raws: seq<string>, entries: seq<string>, r: string)
    requires r in raws && canon(r) in Want(canon, entries)
    ensures r in Reconcile(canon, raws, entries)
  {
    PostedEntries(canon, Have(canon, raws), raws, entries);
  }

  /** A run without errors ends in sync if and only if no unwanted entry had two spellings: `have` remembers one spelling
      of each form and only that one is deleted. */
  lemma InSyncExactlyWithoutTwins(canon: string -> string, raws: seq<string>, entries: seq<string>)
    requires Idempotent(canon, entries)
    ensures InSync(canon, Reconcile(canon, raws, entries), entries) <==> !Twins(canon, raws, entries)
  {
    var have, want := Have(canon, raws), Want(canon, entries);
    var posted := Posted(canon, have, raws, entries);
    var after := Reconcile(canon, raws, entries);
    PostedEntries(canon, have, raws, entries);
    forall w | w in want
      ensures canon(w) == w
      ensures exists r :: r in after && canon(r) == w
    {
      var e :| e in entries && canon(e) == w;
      assert canon(canon(e)) == canon(e);
      if w in have {
        assert have[w] in after;
      } else {
        assert w in posted && w in after;
      }
    }
    if Twins(canon, raws, entries) {
      var a, b :| a in raws && b in raws && a != b && canon(a) == canon(b) && canon(a) != "" && canon(a) !in want;
      var survivor := if have[canon(a)] == a then b else a;
      assert survivor in after;
    }
  }

  lemma {:induction false} NothingToPost(canon: string -> string, have: map<string, string>, raws: seq<string>, entries: seq<string>)
    requires forall w :: w in Want(canon, entries) ==> w in have
    ensures Posted(canon, have, raws, entries) == raws
    decreases |entries|
  {
    if entries != [] {
      var init, last := entries[..|entries| - 1], entries[|entries| - 1];
      assert forall w :: w in Want(canon, init) ==> w in Want(canon, entries);
      NothingToPost(canon, have, raws, init);
      assert last in entries;
    }
  }

  lemma {:induction false} NothingDead(raws: seq<string>, dead: set<string>)
    requires forall r :: r in raws ==> r !in dead
    ensures Without(raws, dead) == raws
    decreases |raws|
  {
    if raws != [] {
      NothingDead(raws[..|raws| - 1], dead);
      assert raws == raws[..|raws| - 1] + [raws[|raws| - 1]];
    }
  }

  /** A set that is in sync needs no POST and no DELETE, so the second run changes nothing. */
  lemma InSyncNeedsNothing(canon: string -> string, raws: seq<string>, entries: seq<string>)
    requires InSync(canon, raws, entries)
    ensures Dead(Have(canon, raws), Want(canon, entries)) == {}
    ensures forall w :: w in Want(canon, entries) ==> w in Have(canon, raws)
    ensures Reconcile(canon, raws, entries) == raws
  {
    var have, want := Have(canon, raws), Want(canon, entries);
    NothingToPost(canon, have, raws, entries);
    NothingDead(raws, Dead(have, want));
  }

  /** A bare address and the same address with its full prefix, neither wanted: the first stays. canonicalIPSetCIDR maps
      these two spellings as `canon` does. */
  lemma TwinsExist()
    ensures var canon := (s: string) => if s == "10.0.0.1" then "10.0.0.1/32" else s;
            var raws := ["10.0.0.1", "10.0.0.1/32"];
            Idempotent(canon, []) && Twins(canon, raws, []) && !InSync(canon, Reconcile(canon, raws, []), [])
  {
    var canon := (s: string) => if s == "10.0.0.1" then "10.0.0.1/32" else s;
    var raws := ["10.0.0.1", "10.0.0.1/32"];
    assert raws[0] in raws && raws[1] in raws && canon(raws[0]) == canon(raws[1]) == "10.0.0.1/32";
    assert Want(canon, []) == {};
    InSyncExactlyWithoutTwins(canon, raws, []);
  }

  lemma {:induction false} WithoutTwice(raws: seq<string>, a: set<string>, b: set<string>)
    ensures Without(Without(raws, a), b) == Without(raws, a + b)
    decreases |raws|
  {
    if raws != [] {
      var init, last := raws[..|raws| - 1], raws[|raws| - 1];
      WithoutTwice(init, a, b);
      if last !in a {
        assert (Without(init, a) + [last])[..|Without(init, a)|] == Without(init, a);
      }
    }
  }

  datatype Change = Post(cidr: string) | Remove(cidr: string)

  /** A remote IP set; `fails` decides which changes are refused. */
  class RemoteSet {
    var raws: seq<string>
    var changes: nat
    const fails: Change -> bool

    constructor (raws: seq<string>, fails: Change -> bool)
      ensures this.raws == raws && this.fails == fails && changes == 0
    {
      this.raws, this.fails, this.changes := raws, fails, 0;
    }

    /** `known` is the already-exists answer. */
    method PostEntry(cidr: string) returns (ok: bool, known: bool)
      modifies this
      ensures changes == old(changes) + 1
      ensures known == (cidr in old(raws)) && ok == (!known && !fails(Post(cidr)))
      ensures raws == if ok && !known then old(raws) + [cidr] else old(raws)
    {
      changes := changes + 1;
      known := cidr in raws;
      ok := !known && !fails(Post(cidr));
      if ok {
        raws := raws + [cidr];
      }
    }

    method DeleteEntry(cidr: string) returns (ok: bool)
      modifies this
      ensures changes == old(changes) + 1 && ok == !fails(Remove(cidr))
      ensures raws == if ok then Without(old(raws), {cidr}) else old(raws)
    {
      changes := changes + 1;
      ok := !fails(Remove(cidr));
      if ok {
        raws := Without(raws, {cidr});
      }
    }
  }

  method BuildHave(canon: string -> string, current: seq<string>) returns (have: map<string, string>)
    ensures have == Have(canon, current)
  {
    have := map[];
    for i := 0 to |current|
      invariant have == Have(canon, current[..i])
    {
      assert current[..i + 1][..i] == current[..i];
      if canon(current[i]) != "" {
        have := have[canon(current[i]) := current[i]];
      }
    }
    assert current[..|current|] == current;
  }

  lemma WantGrows(canon: string -> string, entries: seq<string>, i: nat)
    requires i < |entries|
    ensures Want(canon, entries[..i + 1]) == Want(canon, entries[..i]) + (if canon(entries[i]) == "" then {} else {canon(entries[i])})
    ensures Want(canon, entries[..i + 1]) <= Want(canon, entries)
  {
    assert entries[..i + 1] == entries[..i] + [entries[i]];
  }

  /** The POST loop. */
  method PostWanted(remote: RemoteSet, canon: string -> string, have: map<string, string>, entries: seq<string>)
    returns (ok: bool, want: set<string>)
    modifies remote
    ensures ok ==> want == Want(canon, entries) && remote.raws == Posted(canon, have, old(remote.raws), entries)
    ensures forall r :: r in old(remote.raws) ==> r in remote.raws
    ensures (forall w :: w in Want(canon, entries) ==> w in have) ==> ok && remote.changes == old(remote.changes)
    ensures (forall w :: w in Want(canon, entries) ==> !remote.fails(Post(w))) ==> ok
    ensures forall r :: r in remote.raws ==> r in old(remote.raws) || r in Want(canon, entries)
  {
    var current := remote.raws;
    want := {};
    for i := 0 to |entries|
      invariant want == Want(canon, entries[..i])
      invariant remote.raws == Posted(canon, have, current, entries[..i])
      invariant (forall w :: w in Want(canon, entries) ==> w in have) ==> remote.changes == old(remote.changes)
    {
      var c := canon(entries[i]);
      WantGrows(canon, entries, i);
      PostedEntries(canon, have, current, entries[..i]);
      assert entries[..i + 1][..i] == entries[..i];
      if c != "" {
        want := want + {c};
        if c !in have {
          assert c in Want(canon, entries);
          var posted, known := remote.PostEntry(c);
          if !posted && !known {
            return false, want;
          }
        }
      }
    }
    assert entries[..|entries|] == entries;
    PostedEntries(canon, have, current, entries);
    ok := true;
  }

  /** ensureVMIPSet on an existing set. Whatever fails, right entries stay and only wanted forms are added; when PVE refuses
      nothing it succeeds, and then the set is reconciled; and a set in sync is not touched. */
  method EnsureIpSet(remote: RemoteSet, canon: string -> string, entries: seq<string>) returns (ok: bool)
    modifies remote
    ensures ok ==> remote.raws == Reconcile(canon, old(remote.raws), entries)
    ensures forall r :: r in old(remote.raws) && canon(r) in Want(canon, entries) ==> r in remote.raws
    ensures InSync(canon, old(remote.raws), entries) ==> ok && remote.changes == old(remote.changes)
    ensures (forall change :: !remote.fails(change)) ==> ok
    ensures forall r :: r in remote.raws ==> r in old(remote.raws) || r in Want(canon, entries)
  {
    var have := BuildHave(canon, remote.raws);
    if InSync(canon, remote.raws, entries) {
      InSyncNeedsNothing(canon, remote.raws, entries);
    }
    var posted, want := PostWanted(remote, canon, have, entries);
    if !posted {
      return false;
    }
    ok := DeleteUnwanted(remote, have, want);
  }

  /** The DELETE loop; the map is walked in any order. */
  method DeleteUnwanted(remote: RemoteSet, have: map<string, string>, want: set<string>) returns (ok: bool)
    modifies remote
    ensures ok ==> remote.raws == Without(old(remote.raws), Dead(have, want))
    ensures forall r :: r in old(remote.raws) && r !in Dead(have, want) ==> r in remote.raws
    ensures Dead(have, want) == {} ==> ok && remote.changes == old(remote.changes)
    ensures (forall change :: !remote.fails(change)) ==> ok
    ensures forall r :: r in remote.raws ==> r in old(remote.raws)
  {
    var start := remote.raws;
    var left := have.Keys;
    ghost var gone: set<string> := {};
    NothingDead(start, {});
    while left != {}
      invariant left <= have.Keys
      invariant gone == set k | k in have && k !in left && k !in want :: have[k]
      invariant remote.raws == Without(start, gone)
      invariant Dead(have, want) == {} ==> remote.changes == old(remote.changes)
      decreases |left|
    {
      var k :| k in left;
      left := left - {k};
      if k !in want {
        assert have[k] in Dead(have, want);
        ok := remote.DeleteEntry(have[k]);
        if !ok {
          return;
        }
        WithoutTwice(start, gone, {have[k]});
        gone := gone + {have[k]};
      }
    }
    assert gone == Dead(have, want);
    return true;
  }

  // ---- firewall rules ----

  /** A remote rule list: DELETE takes a position and closes the gap, POST puts the rule at a place PVE chooses. */
  class RuleList<Rule(==)> {
    var rules: seq<Rule>

    constructor (rules: seq<Rule>)
      ensures this.rules == rules
    {
      this.rules := rules;
    }

    method DeleteAt(pos: nat)
      requires pos < |rules|
      modifies this
      ensures rules == old(rules)[..pos] + old(rules)[pos + 1..]
    {
      rules := rules[..pos] + rules[pos + 1..];
    }

    method Add(rule: Rule)
      modifies this
      ensures multiset(rules) == multiset(old(rules)) + multiset{rule}
    {
      var pos: int :| 0 <= pos <= |rules|;
      assert rules == rules[..pos] + rules[pos..];
      rules := rules[..pos] + [rule] + rules[pos..];
    }

    /** clearFirewallRules: from the last position down, so the listed positions stay valid. After `budget` successful
        calls the next one fails; what is left is a prefix of the list. */
    method Clear(budget: nat) returns (ok: bool)
      modifies this
      ensures ok <==> |old(rules)| <= budget
      ensures ok ==> rules == []
      ensures !ok ==> rules == old(rules)[..|old(rules)| - budget]
    {
      var n := |rules|;
      var i := n;
      while i > 0
        invariant 0 <= i <= n == |old(rules)| && n - i <= budget
        invariant rules == old(rules)[..i]
      {
        if n - i == budget {
          return false;
        }
        i := i - 1;
        DeleteAt(i);
      }
      return true;
    }

    /** applyVMFirewallRules under a budget of successful calls: the old rules go from the last to the first, then the wanted
        ones come in order. Whatever fails, old and new rules are never mixed, and what is there is a prefix of one list. */
    method Apply(wanted: seq<Rule>, budget: nat) returns (ok: bool)
      modifies this
      ensures ok <==> |old(rules)| + |wanted| <= budget
      ensures ok ==> multiset(rules) == multiset(wanted)
      ensures !ok && budget < |old(rules)| ==> rules == old(rules)[..|old(rules)| - budget]
      ensures !ok && budget >= |old(rules)| ==> multiset(rules) == multiset(wanted[..budget - |old(rules)|])
    {
      var n := |rules|;
      ok := Clear(budget);
      if !ok {
        return;
      }
      for i := 0 to |wanted|
        invariant n + i <= budget
        invariant multiset(rules) == multiset(wanted[..i])
      {
        if n + i == budget {
          return false;
        }
        assert wanted[..i + 1] == wanted[..i] + [wanted[i]];
        Add(wanted[i]);
      }
      assert wanted[..|wanted|] == wanted;
    }
  }
}
