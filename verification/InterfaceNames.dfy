/** The naming codec between SONiC ports (`EthernetN`) and abstract interfaces (`ethP-V`),
    and the Kubernetes object names built from it. */
module InterfaceNames {
  import opened Text

  function NativeName(n: int): string {
    "Ethernet" + Itoa(n)
  }

  function AbstractName(port: int, lane: int): string {
    "eth" + Itoa(port) + "-" + Itoa(lane)
  }

  /** The abstract name of port number `n`: four lanes a port, with Go's truncated `/` and `%`. */
  function AbstractNameOf(n: int): string {
    AbstractName(TruncDiv(n, 4), TruncMod(n, 4))
  }

  /** The number `NativeNameToAbstractName` reads out of a native name. */
  function NativeNumber(native: string): Option<int> {
    if "Ethernet" <= native then
      match ScanInt(native[8..])
      case Some((n, _)) => Some(n)
      case None => None
    else None
  }

  function NativeToAbstract(native: string): Option<string> {
    match NativeNumber(native)
    case Some(n) => Some(AbstractNameOf(n))
    case None => None
  }

  /** `fmt.Sscanf(name, "eth%d-%d", ...)`: port and lane. */
  function ScanAbstract(name: string): (r: Option<(int, int)>)
    ensures r.Some? ==> IsInt64(r.value.0) && IsInt64(r.value.1)
  {
    if !("eth" <= name) then None
    else
      match ScanInt(name[3..])
      case None => None
      case Some((port, rest)) =>
        if !("-" <= rest) then None
        else
          match ScanInt(rest[1..])
          case None => None
          case Some((lane, _)) => Some((port, lane))
  }

  function AbstractToNative(name: string): Option<string> {
    match ScanAbstract(name)
    case Some((port, lane)) => Some(NativeName(Wrap64(4 * port + lane)))
    case None => None
  }

  /** The agent's reading of a request's interface name: abstract names are converted, native names are used as they
      are. */
  function ResolvePort(name: string): Option<string> {
    if "eth" <= name then AbstractToNative(name)
    else if "Ethernet" <= name then Some(name)
    else None
  }

  // ---------- reading what was printed ----------

  lemma NativeNumberOf(n: int)
    requires IsInt64(n)
    ensures NativeNumber(NativeName(n)) == Some(n)
  {
    hide Itoa, ScanInt;
    assert NativeName(n)[8..] == Itoa(n) + "";
    ScanPrinted(n, "");
  }

  lemma ScanAbstractOf(port: int, lane: int)
    requires IsInt64(port) && IsInt64(lane)
    ensures ScanAbstract(AbstractName(port, lane)) == Some((port, lane))
  {
    hide Itoa, ScanInt;
    var name := AbstractName(port, lane);
    var rest := "-" + Itoa(lane);
    assert name[3..] == Itoa(port) + rest;
    ScanPrinted(port, rest);
    assert rest[1..] == Itoa(lane) + "";
    ScanPrinted(lane, "");
  }

  lemma AbstractNameInjective(p1: int, v1: int, p2: int, v2: int)
    requires IsInt64(p1) && IsInt64(v1) && IsInt64(p2) && IsInt64(v2)
    requires AbstractName(p1, v1) == AbstractName(p2, v2)
    ensures p1 == p2 && v1 == v2
  {
    hide Itoa, ScanAbstract, AbstractName;
    ScanAbstractOf(p1, v1);
    ScanAbstractOf(p2, v2);
  }

  lemma SplitOfNumber(n: int)
    requires IsInt64(n)
    ensures var p, v := TruncDiv(n, 4), TruncMod(n, 4);
            IsInt64(p) && IsInt64(v) && 4 * p + v == n && -3 <= v <= 3 && (n >= 0 ==> p >= 0 && v >= 0)
              && (n <= 0 ==> p <= 0 && v <= 0)
  {
  }

  lemma SplitUnique(n: int, p: int, v: int)
    requires 4 * p + v == n && -3 <= v <= 3 && (p > 0 ==> v >= 0) && (p < 0 ==> v <= 0)
    ensures TruncDiv(n, 4) == p && TruncMod(n, 4) == v
  {
  }

  // ---------- round trips ----------

  /** EthernetN -> ethP-V -> EthernetN is the identity for every 64-bit N, negative ones included. */
  lemma NativeRoundTrip(n: int)
    requires IsInt64(n)
    ensures NativeToAbstract(NativeName(n)) == Some(AbstractNameOf(n))
    ensures AbstractToNative(AbstractNameOf(n)) == Some(NativeName(n))
  {
    hide Itoa, ScanInt, ScanAbstract, TruncDiv, TruncMod, AbstractName, NativeNumber, NativeName;
    NativeNumberOf(n);
    SplitOfNumber(n);
    ScanAbstractOf(TruncDiv(n, 4), TruncMod(n, 4));
  }

  /** The agent takes either name of a port number for that port, and nothing that begins with neither prefix. */
  lemma EitherNameResolves(n: int, other: string)
    requires IsInt64(n)
    ensures ResolvePort(NativeName(n)) == ResolvePort(AbstractNameOf(n)) == Some("Ethernet" + Itoa(n))
    ensures ResolvePort(other).Some? ==> "eth" <= other || "Ethernet" <= other
    ensures "Ethernet" <= other ==> ResolvePort(other) == Some(other)
  {
    hide Itoa, ScanAbstract, TruncDiv, TruncMod;
    NativeRoundTrip(n);
    assert NativeName(n)[0] == 'E' && AbstractNameOf(n)[..3] == "eth";
  }

  /** A native name in canonical spelling: no leading zeros, plus sign, white space or trailing text. */
  ghost predicate Canonical(native: string) {
    exists n :: IsInt64(n) && native == NativeName(n)
  }

  /** For any text the converter accepts, the round trip lands on the canonical name of the number read,
      so it returns to the same text exactly when that text was canonical. */
  lemma NativeRoundTripIff(native: string)
    requires NativeToAbstract(native).Some?
    ensures var back := AbstractToNative(NativeToAbstract(native).value);
            && back == Some(NativeName(NativeNumber(native).value))
            && (back == Some(native) <==> Canonical(native))
  {
    hide Itoa, ScanAbstract, AbstractNameOf, AbstractToNative, NativeName;
    var n := NativeNumber(native).value;
    NativeRoundTrip(n);
    if Canonical(native) {
      var m :| IsInt64(m) && native == NativeName(m);
      NativeNumberOf(m);
    }
  }

  /** The pairs (port, lane) that name a port canonically: a lane within one port, no 64-bit overflow. */
  predicate CanonicalLane(port: int, lane: int) {
    IsInt64(4 * port + lane) && -3 <= lane <= 3 && (port > 0 ==> lane >= 0) && (port < 0 ==> lane <= 0)
  }

  lemma CanonicalLaneIff(port: int, lane: int)
    requires IsInt64(port) && IsInt64(lane)
    ensures var m := Wrap64(4 * port + lane);
            CanonicalLane(port, lane) <==> TruncDiv(m, 4) == port && TruncMod(m, 4) == lane
  {
    var m := Wrap64(4 * port + lane);
    SplitOfNumber(m);
    if CanonicalLane(port, lane) {
      SplitUnique(m, port, lane);
    }
  }

  /** ethP-V -> EthernetM -> abstract is the identity exactly for the canonical pairs. */
  lemma AbstractRoundTripIff(port: int, lane: int)
    requires IsInt64(port) && IsInt64(lane)
    ensures var m := Wrap64(4 * port + lane);
            && AbstractToNative(AbstractName(port, lane)) == Some(NativeName(m))
            && NativeToAbstract(NativeName(m)) == Some(AbstractNameOf(m))
            && (AbstractNameOf(m) == AbstractName(port, lane) <==> CanonicalLane(port, lane))
  {
    hide Itoa, ScanAbstract, TruncDiv, TruncMod, AbstractName, NativeName, CanonicalLane, NativeToAbstract, Wrap64;
    var m := Wrap64(4 * port + lane);
    ScanAbstractOf(port, lane);
    NativeRoundTrip(m);
    CanonicalLaneIff(port, lane);
    if AbstractNameOf(m) == AbstractName(port, lane) {
      SplitOfNumber(m);
      AbstractNameInjective(TruncDiv(m, 4), TruncMod(m, 4), port, lane);
    }
  }

  /** A lane beyond the port's four normalises: the name read back has a lane below four and denotes the same port. */
  lemma AbstractNormalises(port: nat, lane: nat)
    requires IsInt64(4 * port + lane)
    ensures var native := AbstractToNative(AbstractName(port, lane));
            && native == Some(NativeName(4 * port + lane))
            && NativeToAbstract(native.value) == Some(AbstractName(port + lane / 4, lane % 4))
            && AbstractToNative(AbstractName(port + lane / 4, lane % 4)) == native
  {
    hide Itoa, ScanAbstract, TruncDiv, TruncMod, AbstractName, NativeName, CanonicalLane, NativeToAbstract,
      AbstractToNative, Wrap64;
    AbstractRoundTripIff(port, lane);
    SplitUnique(4 * port + lane, port + lane / 4, lane % 4);
    AbstractRoundTripIff(port + lane / 4, lane % 4);
  }

  // ---------- Kubernetes object names ----------

  function LowerChar(c: char): char {
    if 'A' <= c <= 'Z' then c + 32 as char else c
  }

  /** The 26 capital letters have their small ones, every other character stays. */
  lemma LowerCharIs(c: char)
    ensures var upper, lower := "ABCDEFGHIJKLMNOPQRSTUVWXYZ", "abcdefghijklmnopqrstuvwxyz";
            && (forall i :: 0 <= i < 26 && c == upper[i] ==> LowerChar(c) == lower[i])
            && (c !in upper ==> LowerChar(c) == c)
  {
    var upper := "ABCDEFGHIJKLMNOPQRSTUVWXYZ";
    if 'A' <= c <= 'Z' {
      assert upper[c as int - 'A' as int] == c;
    }
  }

  function ToLower(s: string): (r: string)
    ensures |r| == |s| && forall i :: 0 <= i < |s| ==> r[i] == LowerChar(s[i])
  {
    seq(|s|, i requires 0 <= i < |s| => LowerChar(s[i]))
  }

  /** `strings.ToLower(fmt.Sprintf("%s-%s", switch, iface))`. */
  function ObjectName(switchName: string, abstractName: string): string {
    ToLower(switchName + "-" + abstractName)
  }

  /** What follows the `h` of `eth` in an abstract name: no `h` in it. */
  function AbstractTail(n: int): string {
    Itoa(TruncDiv(n, 4)) + "-" + Itoa(TruncMod(n, 4))
  }

  lemma AbstractTailCharacters(n: int)
    ensures forall i :: 0 <= i < |AbstractTail(n)| ==>
              AbstractTail(n)[i] != 'h' && LowerChar(AbstractTail(n)[i]) == AbstractTail(n)[i]
  {
    ItoaCharacters(TruncDiv(n, 4));
    ItoaCharacters(TruncMod(n, 4));
  }

  /** The object name is the lower-cased switch name, `-eth`, and the tail. */
  lemma ObjectNameShape(switchName: string, n: int)
    ensures ObjectName(switchName, AbstractNameOf(n)) == ToLower(switchName) + "-et" + ['h'] + AbstractTail(n)
  {
    hide AbstractNameOf, AbstractTail, ToLower, LowerChar;
    AbstractNameShape(n);
    AbstractTailCharacters(n);
    EthIsLower();
    var tail := AbstractTail(n);
    assert switchName + "-" + AbstractNameOf(n) == switchName + "-eth" + tail;
    LowerSuffix(switchName, "-eth", tail);
    assert ToLower(switchName) + "-eth" + tail == ToLower(switchName) + "-et" + ['h'] + tail;
  }

  lemma EthIsLower()
    ensures var mid := "-eth"; forall i :: 0 <= i < |mid| ==> LowerChar(mid[i]) == mid[i]
  {
  }

  lemma AbstractNameShape(n: int)
    ensures AbstractNameOf(n) == "eth" + AbstractTail(n)
  {
    var a, b, c, d := "eth", Itoa(TruncDiv(n, 4)), "-", Itoa(TruncMod(n, 4));
    assert a + b + c + d == a + (b + c + d);
  }

  lemma LowerSuffix(head: string, mid: string, tail: string)
    requires forall i :: 0 <= i < |mid| ==> LowerChar(mid[i]) == mid[i]
    requires forall i :: 0 <= i < |tail| ==> LowerChar(tail[i]) == tail[i]
    ensures ToLower(head + mid + tail) == ToLower(head) + mid + tail
  {
    assert forall i :: 0 <= i < |head + mid + tail| ==>
             ToLower(head + mid + tail)[i] == (ToLower(head) + mid + tail)[i];
  }

  /** Two ports get the same object name exactly when they are the same port number of switches
      whose names differ at most in letter case — also when switch names contain `-eth`. */
  lemma ObjectNamesCollideIff(switch1: string, n1: int, switch2: string, n2: int)
    requires IsInt64(n1) && IsInt64(n2)
    ensures ObjectName(switch1, AbstractNameOf(n1)) == ObjectName(switch2, AbstractNameOf(n2))
            <==> ToLower(switch1) == ToLower(switch2) && n1 == n2
  {
    ObjectNameShape(switch1, n1);
    ObjectNameShape(switch2, n2);
    AbstractTailCharacters(n1);
    AbstractTailCharacters(n2);
    if ObjectName(switch1, AbstractNameOf(n1)) == ObjectName(switch2, AbstractNameOf(n2)) {
      var a1, a2 := ToLower(switch1) + "-et", ToLower(switch2) + "-et";
      LastPartUnique(a1, AbstractTail(n1), a2, AbstractTail(n2), 'h');
      assert ToLower(switch1) == a1[..|switch1|] && ToLower(switch2) == a2[..|switch2|];
      AbstractNameShape(n1);
      AbstractNameShape(n2);
      PortNumberFromName(n1, n2);
    }
  }

  lemma PortNumberFromName(n1: int, n2: int)
    requires IsInt64(n1) && IsInt64(n2) && AbstractNameOf(n1) == AbstractNameOf(n2)
    ensures n1 == n2
  {
    SplitOfNumber(n1);
    SplitOfNumber(n2);
    AbstractNameInjective(TruncDiv(n1, 4), TruncMod(n1, 4), TruncDiv(n2, 4), TruncMod(n2, 4));
  }

  /** RFC 1123 style switch names are their own lower case, so for them the object name is injective. */
  lemma ObjectNameInjective(switch1: string, n1: int, switch2: string, n2: int)
    requires IsInt64(n1) && IsInt64(n2)
    requires forall c | c in switch1 + switch2 :: LowerChar(c) == c
    requires ObjectName(switch1, AbstractNameOf(n1)) == ObjectName(switch2, AbstractNameOf(n2))
    ensures switch1 == switch2 && n1 == n2
  {
    ObjectNamesCollideIff(switch1, n1, switch2, n2);
    assert forall i :: 0 <= i < |switch1| ==> switch1[i] in switch1 + switch2;
    assert forall i :: 0 <= i < |switch2| ==> switch2[i] in switch1 + switch2;
    assert ToLower(switch1) == switch1 && ToLower(switch2) == switch2;
  }

  // ---------- reading and writing the same port ----------

  /** An interface discovered under CONFIG_DB key `PORT|native` is published with handle
      `NativeToAbstract(native)` and that native name. The client reads through the handle and the
      controller writes through the native name: both reach one and the same CONFIG_DB port
      exactly when the key was canonical. */
  lemma ReadAndWriteSamePortIff(native: string)
    requires NativeToAbstract(native).Some?
    ensures ResolvePort(native) == Some(native)
    ensures AbstractToNative(NativeToAbstract(native).value) == ResolvePort(native) <==> Canonical(native)
  {
    NativeRoundTripIff(native);
    assert "Ethernet" <= native;
    assert native[0] == 'E';
  }
}
