/** The net0 option string: split at commas, rewrite bridge and firewall, join again. */
module Net0 {
  import opened Records
  import opened Strings

  // ---- strings.Split and strings.Join ----

  function Split(s: string): (parts: seq<string>)
    ensures parts != [] && forall p :: p in parts ==> ',' !in p
  {
    if s == "" then [""]
    else
      var rest := Split(s[1..]);
      if s[0] == ',' then [""] + rest else [[s[0]] + rest[0]] + rest[1..]
  }

  function Join(parts: seq<string>): string
    requires parts != []
  {
    if |parts| == 1 then parts[0] else parts[0] + "," + Join(parts[1..])
  }

  lemma {:induction false} JoinOfSplit(s: string)
    ensures Join(Split(s)) == s
  {
    if s != "" {
      JoinOfSplit(s[1..]);
      var rest := Split(s[1..]);
      if s[0] == ',' {
        assert ([""] + rest)[1..] == rest;
      } else {
        var parts := [[s[0]] + rest[0]] + rest[1..];
        assert parts[1..] == rest[1..];
      }
    }
  }

  lemma {:induction false} SplitOfPlain(p: string)
    requires ',' !in p
    ensures Split(p) == [p]
  {
    if p != "" {
      SplitOfPlain(p[1..]);
      assert p[0] in p && p == [p[0]] + p[1..];
    }
  }

  lemma {:induction false} SplitOfConcat(p: string, s: string)
    requires ',' !in p
    ensures Split(p + "," + s) == [p] + Split(s)
  {
    if p == "" {
      assert ("" + "," + s)[1..] == s;
    } else {
      SplitOfConcat(p[1..], s);
      assert (p + "," + s)[1..] == p[1..] + "," + s;
      assert (p + "," + s)[0] == p[0] && p[0] in p && p == [p[0]] + p[1..];
    }
  }

  lemma {:induction false} SplitOfJoin(parts: seq<string>)
    requires parts != [] && forall p :: p in parts ==> ',' !in p
    ensures Split(Join(parts)) == parts
  {
    if |parts| == 1 {
      SplitOfPlain(parts[0]);
    } else {
      SplitOfJoin(parts[1..]);
      SplitOfConcat(parts[0], Join(parts[1..]));
      assert parts == [parts[0]] + parts[1..];
    }
  }

  // ---- rewriteNet0 and bridgeFromNet0 ----

  const BRIDGE := "bridge="
  const FIREWALL := "firewall="

  predicate IsBridge(p: string) { BRIDGE <= p }

  predicate IsFirewall(p: string) { FIREWALL <= p }

  function RewritePart(p: string, bridge: string): string {
    if IsBridge(p) then BRIDGE + bridge else if IsFirewall(p) then "firewall=1" else p
  }

  function RewriteEach(parts: seq<string>, bridge: string): (r: seq<string>)
    ensures |r| == |parts|
    ensures forall i :: 0 <= i < |parts| ==> r[i] == RewritePart(parts[i], bridge)
  {
    seq(|parts|, i requires 0 <= i < |parts| => RewritePart(parts[i], bridge))
  }

  predicate HasBridge(parts: seq<string>) {
    exists p :: p in parts && IsBridge(p)
  }

  predicate HasFirewall(parts: seq<string>) {
    exists p :: p in parts && IsFirewall(p)
  }

  function Missing(parts: seq<string>, bridge: string): seq<string> {
    (if HasBridge(parts) then [] else [BRIDGE + bridge]) + (if HasFirewall(parts) then [] else ["firewall=1"])
  }

  function RewriteParts(parts: seq<string>, bridge: string): seq<string> {
    RewriteEach(parts, bridge) + Missing(parts, bridge)
  }

  function Rewrite(current: string, bridge: string): string {
    if current == "" then "" else Join(RewriteParts(Split(current), bridge))
  }

  lemma SeenSoFar(parts: seq<string>, i: nat)
    requires i < |parts|
    ensures HasBridge(parts[..i + 1]) <==> HasBridge(parts[..i]) || IsBridge(parts[i])
    ensures HasFirewall(parts[..i + 1]) <==> HasFirewall(parts[..i]) || IsFirewall(parts[i])
  {
    assert parts[..i + 1] == parts[..i] + [parts[i]];
    assert parts[i] in parts[..i + 1];
  }

  lemma PrefixesDiffer(p: string)
    ensures !(IsBridge(p) && IsFirewall(p))
  {
    assert IsBridge(p) ==> p[0] == 'b';
    assert IsFirewall(p) ==> p[0] == 'f';
  }

  /** rewriteNet0, editing the slice of options in place. */
  method RewriteNet0(current: string, bridge: string) returns (r: string)
    ensures r == Rewrite(current, bridge)
  {
    if current == "" {
      return "";
    }
    var split := Split(current);
    var parts := new string[|split|](i requires 0 <= i < |split| => split[i]);
    var seenBridge, seenFirewall := false, false;
    for i := 0 to parts.Length
      invariant parts[..i] == RewriteEach(split, bridge)[..i]
      invariant parts[i..] == split[i..]
      invariant seenBridge == HasBridge(split[..i]) && seenFirewall == HasFirewall(split[..i])
    {
      SeenSoFar(split, i);
      PrefixesDiffer(split[i]);
      var part := parts[i];
      assert part == parts[i..][0] == split[i];
      if IsBridge(part) {
        parts[i] := BRIDGE + bridge;
        seenBridge := true;
      }
      if IsFirewall(part) {
        parts[i] := "firewall=1";
        seenFirewall := true;
      }
      assert parts[i] == RewriteEach(split, bridge)[i];
      assert parts[..i + 1] == parts[..i] + [parts[i]];
      assert parts[i + 1..] == split[i..][1..];
    }
    var out := parts[..];
    assert out == RewriteEach(split, bridge);
    assert split[..|split|] == split;
    if !seenBridge {
      out := out + [BRIDGE + bridge];
    }
    if !seenFirewall {
      out := out + ["firewall=1"];
    }
    assert out == RewriteParts(split, bridge);
    r := Join(out);
  }

  /** bridgeFromNet0 on the options. */
  function BridgeOf(parts: seq<string>): string {
    if parts == [] then ""
    else
      var p := Trim(parts[0]);
      if IsBridge(p) then Trim(p[|BRIDGE|..]) else BridgeOf(parts[1..])
  }

  function BridgeFromNet0(raw: string): string {
    BridgeOf(Split(raw))
  }

  // ---- main results ----

  /** The options of the result are the rewritten options, because no option and no bridge name contains a comma. */
  lemma OptionsOfRewrite(current: string, bridge: string)
    requires current != "" && ',' !in bridge
    ensures Split(Rewrite(current, bridge)) == RewriteParts(Split(current), bridge)
  {
    var parts := RewriteParts(Split(current), bridge);
    assert ',' !in BRIDGE + bridge && ',' !in "firewall=1";
    SplitOfJoin(parts);
  }

  function Others(parts: seq<string>): seq<string> {
    if parts == [] then []
    else (if IsBridge(parts[0]) || IsFirewall(parts[0]) then [] else [parts[0]]) + Others(parts[1..])
  }

  lemma {:induction false} OthersOfConcat(a: seq<string>, b: seq<string>)
    ensures Others(a + b) == Others(a) + Others(b)
  {
    if a == [] {
      assert a + b == b;
    } else {
      OthersOfConcat(a[1..], b);
      assert (a + b)[1..] == a[1..] + b;
    }
  }

  lemma {:induction false} OthersOfEach(parts: seq<string>, bridge: string)
    ensures Others(RewriteEach(parts, bridge)) == Others(parts)
  {
    if parts != [] {
      OthersOfEach(parts[1..], bridge);
      assert RewriteEach(parts, bridge)[1..] == RewriteEach(parts[1..], bridge);
    }
  }

  lemma RewriteKeepsOthers(parts: seq<string>, bridge: string)
    ensures Others(RewriteParts(parts, bridge)) == Others(parts)
  {
    OthersOfEach(parts, bridge);
    OthersOfConcat(RewriteEach(parts, bridge), Missing(parts, bridge));
    OthersOfConcat(if HasBridge(parts) then [] else [BRIDGE + bridge], if HasFirewall(parts) then [] else ["firewall=1"]);
    assert IsBridge(BRIDGE + bridge) && IsFirewall("firewall=1");
  }

  /** Every bridge option names the bridge, every firewall option is on, and there is at least one of each. */
  predicate Settled(parts: seq<string>, bridge: string) {
    && (forall p :: p in parts && IsBridge(p) ==> p == BRIDGE + bridge) && BRIDGE + bridge in parts
    && (forall p :: p in parts && IsFirewall(p) ==> p == "firewall=1") && "firewall=1" in parts
  }

  lemma RewriteSettles(parts: seq<string>, bridge: string)
    ensures Settled(RewriteParts(parts, bridge), bridge)
  {
    var each, more := RewriteEach(parts, bridge), Missing(parts, bridge);
    PrefixesDiffer(BRIDGE + bridge);
    PrefixesDiffer("firewall=1");
    forall p | p in each
      ensures IsBridge(p) ==> p == BRIDGE + bridge
      ensures IsFirewall(p) ==> p == "firewall=1"
    {
      var i :| 0 <= i < |each| && each[i] == p;
      PrefixesDiffer(parts[i]);
    }
    if HasBridge(parts) {
      var i :| 0 <= i < |parts| && IsBridge(parts[i]);
      assert each[i] == BRIDGE + bridge;
    }
    if HasFirewall(parts) {
      var i :| 0 <= i < |parts| && IsFirewall(parts[i]);
      PrefixesDiffer(parts[i]);
      assert each[i] == "firewall=1";
    }
  }

  /** The rewrite keeps every other option, in order, and settles the two it is about. */
  lemma RewriteKeepsTheRest(current: string, bridge: string)
    requires current != "" && ',' !in bridge
    ensures var parts := Split(Rewrite(current, bridge));
            Others(parts) == Others(Split(current)) && Settled(parts, bridge)
  {
    OptionsOfRewrite(current, bridge);
    RewriteKeepsOthers(Split(current), bridge);
    RewriteSettles(Split(current), bridge);
  }

  lemma SettledIsFixed(parts: seq<string>, bridge: string)
    requires Settled(parts, bridge)
    ensures RewriteParts(parts, bridge) == parts
  {
    forall i | 0 <= i < |parts|
      ensures RewriteEach(parts, bridge)[i] == parts[i]
    {
      assert parts[i] in parts;
    }
    assert RewriteEach(parts, bridge) == parts;
    assert IsBridge(BRIDGE + bridge) && IsFirewall("firewall=1");
    assert Missing(parts, bridge) == [];
  }

  /** Rewriting twice is rewriting once. */
  lemma RewriteIsIdempotent(current: string, bridge: string)
    requires ',' !in bridge
    ensures Rewrite(Rewrite(current, bridge), bridge) == Rewrite(current, bridge)
  {
    if current != "" {
      var once := Rewrite(current, bridge);
      OptionsOfRewrite(current, bridge);
      RewriteSettles(Split(current), bridge);
      SettledIsFixed(Split(once), bridge);
      JoinOfSplit(once);
      if once == "" {
        assert false;
      }
    }
  }

  predicate Trimmed(s: string) {
    s == "" || (!IsSpace(s[0]) && !IsSpace(s[|s| - 1]))
  }

  /** The first option that names a bridge once surrounding spaces are ignored. */
  function FirstBridge(parts: seq<string>): Option<string> {
    if parts == [] then None
    else if IsBridge(Trim(parts[0])) then Some(parts[0])
    else FirstBridge(parts[1..])
  }

  /** A space in front hides the option from the rewrite but not from bridgeFromNet0. */
  predicate Hidden(parts: seq<string>, bridge: string) {
    var first := FirstBridge(parts);
    first.Some? && !IsBridge(first.value) && BridgeOf([first.value]) != bridge
  }

  lemma TrimOfBridge(bridge: string)
    requires Trimmed(bridge)
    ensures Trim(BRIDGE + bridge) == BRIDGE + bridge && Trim(bridge) == bridge
    ensures (BRIDGE + bridge)[|BRIDGE|..] == bridge
  {
    assert (BRIDGE + bridge)[0] == 'b';
  }

  lemma {:induction false} TrimKeepsHead(p: string)
    requires p != "" && !IsSpace(p[0])
    ensures Trim(p) != "" && Trim(p) <= p
    decreases |p|
  {
    if IsSpace(p[|p| - 1]) {
      TrimKeepsHead(p[..|p| - 1]);
    }
  }

  /** An option that starts with bridge= still does when trimmed. */
  lemma {:induction false} TrimKeepsBridge(p: string)
    requires IsBridge(p)
    ensures IsBridge(Trim(p))
    decreases |p|
  {
    if IsSpace(p[|p| - 1]) {
      assert p[|BRIDGE| - 1] == '=';
      TrimKeepsBridge(p[..|p| - 1]);
    }
  }

  lemma PartReadsBack(p: string, bridge: string)
    requires Trimmed(bridge)
    ensures IsBridge(p) ==> IsBridge(Trim(p)) && BridgeOf([RewritePart(p, bridge)]) == bridge
    ensures !IsBridge(p) && IsBridge(Trim(p)) ==> RewritePart(p, bridge) == p
    ensures IsBridge(Trim(RewritePart(p, bridge))) <==> IsBridge(Trim(p))
  {
    TrimOfBridge(bridge);
    assert !IsBridge(Trim("firewall=1"));
    if IsBridge(p) {
      TrimKeepsBridge(p);
    } else if IsFirewall(p) {
      TrimKeepsHead(p);
      assert p[0] == 'f';
    }
  }

  lemma {:induction false} BridgeOfEach(parts: seq<string>, tail: seq<string>, bridge: string)
    requires Trimmed(bridge)
    ensures BridgeOf(RewriteEach(parts, bridge) + tail)
         == match FirstBridge(parts)
            case None => BridgeOf(tail)
            case Some(p) => if IsBridge(p) then bridge else BridgeOf([p])
  {
    hide RewritePart, Trim;
    var each := RewriteEach(parts, bridge);
    if parts == [] {
      assert each + tail == tail;
    } else {
      BridgeOfEach(parts[1..], tail, bridge);
      assert each[1..] == RewriteEach(parts[1..], bridge);
      assert (each + tail)[1..] == each[1..] + tail;
      PartReadsBack(parts[0], bridge);
    }
  }

  /** bridgeFromNet0 of the result is the requested bridge if and only if no space-prefixed bridge option with another
      value comes before the ones the rewrite sees. */
  lemma RewriteSetsBridgeUnlessHidden(current: string, bridge: string)
    requires current != "" && ',' !in bridge && Trimmed(bridge)
    ensures BridgeFromNet0(Rewrite(current, bridge)) == bridge <==> !Hidden(Split(current), bridge)
  {
    var parts := Split(current);
    OptionsOfRewrite(current, bridge);
    BridgeOfEach(parts, Missing(parts, bridge), bridge);
    TrimOfBridge(bridge);
    if FirstBridge(parts) == None {
      NoBridge(parts);
      assert Missing(parts, bridge)[0] == BRIDGE + bridge;
    }
  }

  lemma {:induction false} NoBridge(parts: seq<string>)
    requires FirstBridge(parts) == None
    ensures forall p :: p in parts ==> !IsBridge(p)
  {
    if parts != [] {
      NoBridge(parts[1..]);
      if IsBridge(parts[0]) {
        TrimKeepsBridge(parts[0]);
      }
    }
  }

  /** A blank in front is enough: the old bridge is what is read back. */
  lemma HiddenExists()
    ensures Hidden(Split(" bridge=a"), "b") && BridgeFromNet0(Rewrite(" bridge=a", "b")) != "b"
  {
    hide Rewrite, BridgeFromNet0, Split;
    var part := " bridge=a";
    SplitOfPlain(part);
    TrimOfBridge("a");
    assert part[0] == ' ' && part[1..] == BRIDGE + "a";
    RewriteSetsBridgeUnlessHidden(part, "b");
  }
}
