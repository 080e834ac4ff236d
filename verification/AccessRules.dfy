// Access rules of gateway users (crates/ws-net-common/src/config.rs, AccessRule).
module AccessRules {
  import opened Basics

  type Port = p: int | 0 <= p < 0x1_0000

  type Word32 = w: int | 0 <= w < 0x1_0000_0000

  type Word128 = w: int | 0 <= w < 0x1_0000_0000_0000_0000_0000_0000_0000_0000

  // No vector is longer than a 64-bit length.
  const LIST_MAX: nat := 0xFFFF_FFFF_FFFF_FFFF

  datatype IpAddr = V4(v4: Word32) | V6(v6: Word128)

  datatype SocketAddr = SocketAddr(ip: IpAddr, port: Port)

  datatype AccessRule = Any | Address(ip: IpAddr, port: Option<Port>) {
    predicate Allows(address: SocketAddr) {
      match this
      case Any => true
      case Address(ip, port) => ip == address.ip && (port.None? || port.value == address.port)
    }

    predicate Covers(other: AccessRule) {
      match (this, other)
      case (Any, _) => true
      case (Address(ip, port), Address(otherIp, otherPort)) => ip == otherIp && (port.None? || port == otherPort)
      case _ => false
    }

    // The rule parser refuses port 0.
    predicate Parsed() {
      Address? && port.Some? ==> port.value != 0
    }
  }

  // `rules.iter().any(|rule| rule.allows(address))`
  predicate ListAllows(rules: seq<AccessRule>, address: SocketAddr) {
    exists i :: 0 <= i < |rules| && rules[i].Allows(address)
  }

  predicate ListCoversRule(rules: seq<AccessRule>, rule: AccessRule) {
    exists i :: 0 <= i < |rules| && rules[i].Covers(rule)
  }

  // `old.iter().all(|rule| new.iter().any(|new| new.covers(rule)))`
  predicate ListCovers(new_: seq<AccessRule>, old_: seq<AccessRule>) {
    forall i :: 0 <= i < |old_| ==> ListCoversRule(new_, old_[i])
  }

  // Everything `rule` reaches is reached by `rules`; a target never has port 0.
  ghost predicate Reaches(rules: seq<AccessRule>, rule: AccessRule) {
    forall address: SocketAddr :: address.port != 0 && rule.Allows(address) ==> ListAllows(rules, address)
  }

  ghost predicate Contains(new_: seq<AccessRule>, old_: seq<AccessRule>) {
    forall address: SocketAddr :: address.port != 0 && ListAllows(old_, address) ==> ListAllows(new_, address)
  }

  // `rule` is an IP:* rule whose 65535 ports are listed one by one in `rules`.
  ghost predicate PortsEnumerated(rules: seq<AccessRule>, rule: AccessRule) {
    rule.Address? && rule.port.None? &&
    forall p: Port :: p != 0 ==> Address(rule.ip, Some(p)) in rules
  }

  // Rule covering is sound: what the old list allowed, a covering list still allows (every port, 0 included).
  lemma CoveringKeepsAccess(new_: seq<AccessRule>, old_: seq<AccessRule>, address: SocketAddr)
    requires ListCovers(new_, old_) && ListAllows(old_, address)
    ensures ListAllows(new_, address)
  {
  }

  lemma ListCoversItself(rules: seq<AccessRule>)
    ensures ListCovers(rules, rules)
  {
  }

  // The IPv6 words that appear in the first n rules.
  ghost function ListedWords(rules: seq<AccessRule>, n: nat): (words: set<int>)
    requires n <= |rules|
    ensures |words| <= n
    ensures forall i :: 0 <= i < n && rules[i].Address? && rules[i].ip.V6? ==> rules[i].ip.v6 in words
  {
    if n == 0 then {}
    else
      var words := ListedWords(rules, n - 1);
      if rules[n - 1].Address? && rules[n - 1].ip.V6? then words + {rules[n - 1].ip.v6} else words
  }

  ghost function FirstInts(n: nat): (r: set<int>)
    ensures |r| == n && forall x :: x in r <==> 0 <= x < n
  {
    if n == 0 then {} else FirstInts(n - 1) + {n - 1}
  }

  // No list names every IPv6 address.
  lemma UnlistedAddress(rules: seq<AccessRule>) returns (ip: IpAddr)
    requires |rules| <= LIST_MAX
    ensures forall i :: 0 <= i < |rules| && rules[i].Address? ==> rules[i].ip != ip
  {
    var words := ListedWords(rules, |rules|);
    var candidates := FirstInts(|rules| + 1);
    if candidates <= words {
      SubsetSize(candidates, words);
      assert false;
    }
    var w :| w in candidates && w !in words;
    ip := V6(w);
  }

  lemma SubsetSize<T>(a: set<T>, b: set<T>)
    requires a <= b
    ensures |a| <= |b|
  {
    assert b == a + (b - a);
  }

  // Exactly when a list reaches everything one rule does: one of its rules covers it, or it spells out all ports.
  lemma ReachesExactly(rules: seq<AccessRule>, rule: AccessRule)
    requires |rules| <= LIST_MAX
    requires rule.Parsed()
    ensures Reaches(rules, rule) <==> ListCoversRule(rules, rule) || PortsEnumerated(rules, rule)
  {
    if ListCoversRule(rules, rule) {
      var i :| 0 <= i < |rules| && rules[i].Covers(rule);
      forall address: SocketAddr | rule.Allows(address) ensures ListAllows(rules, address) {
        assert rules[i].Allows(address);
      }
    } else if PortsEnumerated(rules, rule) {
      forall address: SocketAddr | address.port != 0 && rule.Allows(address) ensures ListAllows(rules, address) {
        var i :| 0 <= i < |rules| && rules[i] == Address(rule.ip, Some(address.port));
        assert rules[i].Allows(address);
      }
    } else {
      UncoveredRuleLosesReach(rules, rule);
    }
  }

  lemma UncoveredRuleLosesReach(rules: seq<AccessRule>, rule: AccessRule)
    requires |rules| <= LIST_MAX && rule.Parsed()
    requires !ListCoversRule(rules, rule) && !PortsEnumerated(rules, rule)
    ensures !Reaches(rules, rule)
  {
    assert forall i :: 0 <= i < |rules| ==> !rules[i].Covers(rule);
    var lost: SocketAddr;
    match rule
    case Any =>
      var ip := UnlistedAddress(rules);
      lost := SocketAddr(ip, 1);
    case Address(ip, Some(p)) =>
      lost := SocketAddr(ip, p);
    case Address(ip, None) =>
      var p: Port :| p != 0 && Address(ip, Some(p)) !in rules;
      lost := SocketAddr(ip, p);
      forall i | 0 <= i < |rules| ensures !rules[i].Allows(lost) {
        assert !rules[i].Covers(rule);
        assert rules[i] in rules;
      }
    assert rule.Allows(lost) && !ListAllows(rules, lost);
  }

  // The test made at reload is exact: it fails precisely when some target is lost, except where an IP:* rule
  // was replaced by one rule for each of its ports.
  lemma ListCoversIsContainment(new_: seq<AccessRule>, old_: seq<AccessRule>)
    requires |new_| <= LIST_MAX
    requires forall i :: 0 <= i < |old_| ==> old_[i].Parsed()
    ensures Contains(new_, old_) <==>
            forall i :: 0 <= i < |old_| ==> ListCoversRule(new_, old_[i]) || PortsEnumerated(new_, old_[i])
    ensures |new_| < 0xFFFF ==> (ListCovers(new_, old_) <==> Contains(new_, old_))
  {
    forall i | 0 <= i < |old_|
      ensures Reaches(new_, old_[i]) <==> ListCoversRule(new_, old_[i]) || PortsEnumerated(new_, old_[i])
      ensures |new_| < 0xFFFF ==> !PortsEnumerated(new_, old_[i])
    {
      ReachesExactly(new_, old_[i]);
      if |new_| < 0xFFFF && PortsEnumerated(new_, old_[i]) {
        EnumerationIsLong(new_, old_[i].ip, 0xFFFF);
      }
    }
    if forall i :: 0 <= i < |old_| ==> Reaches(new_, old_[i]) {
      assert Contains(new_, old_);
    } else {
      var i :| 0 <= i < |old_| && !Reaches(new_, old_[i]);
      var address: SocketAddr :| address.port != 0 && old_[i].Allows(address) && !ListAllows(new_, address);
      assert ListAllows(old_, address);
    }
  }

  // The exception is real: trading "ip:*" for its 65535 single-port rules loses no target but fails the test.
  lemma EnumeratedPortsFailTheTest(ip: IpAddr)
    ensures var new_ := seq(0xFFFF, i requires 0 <= i < 0xFFFF => Address(ip, Some(i + 1)));
            var old_ := [Address(ip, None)];
            Contains(new_, old_) && !ListCovers(new_, old_)
  {
    var new_ := seq(0xFFFF, i requires 0 <= i < 0xFFFF => Address(ip, Some(i + 1)));
    var old_ := [Address(ip, None)];
    forall address: SocketAddr | address.port != 0 && ListAllows(old_, address) ensures ListAllows(new_, address) {
      assert new_[address.port - 1].Allows(address);
    }
    assert !ListCoversRule(new_, old_[0]);
  }

  lemma EnumerationIsLong(rules: seq<AccessRule>, ip: IpAddr, n: nat)
    requires n <= 0xFFFF
    requires forall p: Port :: 1 <= p <= n ==> Address(ip, Some(p)) in rules
    ensures n <= |rules|
  {
    var ports := set i | 0 <= i < |rules| && rules[i].Address? && rules[i].port.Some? :: rules[i].port.value - 1;
    var wanted := FirstInts(n);
    forall x | x in wanted ensures x in ports {
      var p: Port := x + 1;
      assert Address(ip, Some(p)) in rules;
      var i :| 0 <= i < |rules| && rules[i] == Address(ip, Some(p));
    }
    SubsetSize(wanted, ports);
    ListedPortsBound(rules, |rules|);
    assert ports == ListedPorts(rules, |rules|);
  }

  ghost function ListedPorts(rules: seq<AccessRule>, n: nat): set<int>
    requires n <= |rules|
  {
    set i | 0 <= i < n && rules[i].Address? && rules[i].port.Some? :: rules[i].port.value - 1
  }

  lemma ListedPortsBound(rules: seq<AccessRule>, n: nat)
    requires n <= |rules|
    ensures |ListedPorts(rules, n)| <= n
  {
    if n > 0 {
      ListedPortsBound(rules, n - 1);
      var last := if rules[n - 1].Address? && rules[n - 1].port.Some? then {rules[n - 1].port.value - 1} else {};
      assert ListedPorts(rules, n) == ListedPorts(rules, n - 1) + last;
    }
  }
}
