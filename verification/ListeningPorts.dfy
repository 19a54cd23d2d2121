/** The `mysql-interfaces` variable: a list of ports kept as text. */
module ListeningPorts {
  import opened Text

  /** `0.0.0.0:6033` */
  function PrintInterface(port: int): string {
    "0.0.0.0:" + Num(port)
  }

  function PrintEach(ports: seq<int>): (texts: seq<string>)
    ensures |texts| == |ports| && forall i | 0 <= i < |ports| :: texts[i] == PrintInterface(ports[i])
  {
    seq(|ports|, i requires 0 <= i < |ports| => PrintInterface(ports[i]))
  }

  function Print(ports: seq<int>): string {
    Join(PrintEach(ports), ';')
  }

  /** The number after the last colon; None where `parseInt` gives NaN. */
  function ParseInterface(text: string): Option<int> {
    var parts := Split(Trim(text), ':');
    ParseInt(parts[|parts| - 1])
  }

  function ParseEach(texts: seq<string>): seq<int> {
    if texts == [] then []
    else
      var port := ParseInterface(texts[0]);
      (if port.Some? then [port.value] else []) + ParseEach(texts[1..])
  }

  /** The ports in the variable's value; the default port when there is none. */
  function Parse(value: Option<string>, mysqlPort: int): (ports: seq<int>)
    ensures ports != []
  {
    if value.None? || value.value == "" then [mysqlPort]
    else
      var ports := ParseEach(Split(value.value, ';'));
      if ports == [] then [mysqlPort] else ports
  }

  lemma {:induction false} NoNumbers(texts: seq<string>)
    requires forall i | 0 <= i < |texts| :: ParseInterface(texts[i]) == None
    ensures ParseEach(texts) == []
  {
    if texts == [] {
    } else {
      NoNumbers(texts[1..]);
    }
  }

  /** Without any number in the variable the default port is meant. */
  lemma DefaultMeant(value: string, mysqlPort: int)
    ensures Parse(None, mysqlPort) == Parse(Some(""), mysqlPort) == [mysqlPort]
    ensures (forall i | 0 <= i < |Split(value, ';')| :: ParseInterface(Split(value, ';')[i]) == None) ==>
              Parse(Some(value), mysqlPort) == [mysqlPort]
  {
    if forall i | 0 <= i < |Split(value, ';')| :: ParseInterface(Split(value, ';')[i]) == None {
      NoNumbers(Split(value, ';'));
    }
  }

  // ---------------------------------------------------------------------------
  // Round trip
  // ---------------------------------------------------------------------------

  lemma {:induction false} TrimKeeps(s: string)
    requires s != "" && !IsSpace(s[0]) && !IsSpace(s[|s| - 1])
    ensures Trim(s) == s
  {
    TrimStartKeeps(s);
  }

  lemma ParsePrinted(port: int)
    ensures ParseInterface(PrintInterface(port)) == Some(port)
    ensures Lacks(PrintInterface(port), ';')
  {
    var text, digits := PrintInterface(port), Num(port);
    NumChars(port);
    assert text[0] == '0' && text[|text| - 1] == digits[|digits| - 1];
    TrimKeeps(text);
    assert text == "0.0.0.0" + [':'] + digits;
    SplitPrefix("0.0.0.0", digits, ':');
    SplitWhole(digits, ':');
    ParseIntNum(port);
  }

  lemma {:induction false} ParseEachPrinted(ports: seq<int>)
    ensures ParseEach(PrintEach(ports)) == ports
  {
    if ports == [] {
    } else {
      ParsePrinted(ports[0]);
      assert PrintEach(ports)[1..] == PrintEach(ports[1..]);
      ParseEachPrinted(ports[1..]);
    }
  }

  /** Parsing the printed list returns any list of ports that is not empty. */
  lemma RoundTrip(ports: seq<int>, mysqlPort: int)
    requires ports != []
    ensures Parse(Some(Print(ports)), mysqlPort) == ports
  {
    var texts := PrintEach(ports);
    forall i | 0 <= i < |texts|
      ensures Lacks(texts[i], ';')
    {
      ParsePrinted(ports[i]);
    }
    SplitJoin(texts, ';');
    ParseEachPrinted(ports);
    assert |Print(ports)| >= |texts[0]| > 0;
  }

  /** The text: every port on all addresses, separated by semicolons. */
  lemma PrintedText(port: int, more: seq<int>)
    ensures Print([port]) == "0.0.0.0:" + Num(port)
    ensures more != [] ==> Print([port] + more) == "0.0.0.0:" + Num(port) + ";" + Print(more)
  {
    assert PrintEach([port]) == [PrintInterface(port)];
    assert PrintEach([port] + more) == [PrintInterface(port)] + PrintEach(more);
    JoinHead(PrintInterface(port), PrintEach(more), ';');
  }

  lemma JoinHead(head: string, rest: seq<string>, sep: char)
    ensures rest != [] ==> Join([head] + rest, sep) == head + [sep] + Join(rest, sep)
  {
    assert ([head] + rest)[1..] == rest;
  }

  lemma {:induction false} SplitEnds(a: string, b: string, sep: char)
    requires Lacks(b, sep)
    ensures var parts := Split(a + [sep] + b, sep); parts[|parts| - 1] == b && |parts| >= 2
  {
    var s := a + [sep] + b;
    if a == "" {
      assert s[1..] == b;
      SplitWhole(b, sep);
    } else {
      assert s[1..] == a[1..] + [sep] + b;
      SplitEnds(a[1..], b, sep);
    }
  }

  /** Any address may stand before the port. */
  lemma ParseAnyAddress(address: string, port: int)
    requires address != "" && !IsSpace(address[0])
    ensures ParseInterface(address + ":" + Num(port)) == Some(port)
  {
    var text, digits := address + [':'] + Num(port), Num(port);
    NumChars(port);
    assert text == address + ":" + Num(port);
    assert text[0] == address[0] && text[|text| - 1] == digits[|digits| - 1];
    TrimKeeps(text);
    SplitEnds(address, digits, ':');
    ParseIntNum(port);
  }

  // ---------------------------------------------------------------------------
  // Adding and removing
  // ---------------------------------------------------------------------------

  function Without(ports: seq<int>, port: int): (rest: seq<int>)
    ensures forall p :: p in rest <==> p in ports && p != port
    ensures port !in ports ==> rest == ports
  {
    if ports == [] then []
    else if ports[0] == port then Without(ports[1..], port)
    else
      assert port !in ports ==> port !in ports[1..];
      [ports[0]] + Without(ports[1..], port)
  }

  lemma {:induction false} WithoutLast(ports: seq<int>, port: int)
    ensures Without(ports + [port], port) == Without(ports, port)
  {
    if ports == [] {
      assert ports + [port] == [port];
    } else {
      assert (ports + [port])[1..] == ports[1..] + [port];
      WithoutLast(ports[1..], port);
    }
  }

  function Added(ports: seq<int>, port: int): seq<int> {
    if port in ports then ports else ports + [port]
  }

  /** Removing the only port puts the default port in its place. */
  function Removed(ports: seq<int>, port: int, mysqlPort: int): seq<int> {
    var rest := Without(ports, port);
    if rest == [] then [mysqlPort] else rest
  }

  /** Adding twice is adding once, and removing a port that was just added restores the list. */
  lemma AddUndone(ports: seq<int>, port: int, mysqlPort: int)
    requires ports != []
    ensures Added(Added(ports, port), port) == Added(ports, port)
    ensures port !in ports ==> Removed(Added(ports, port), port, mysqlPort) == ports
  {
    WithoutLast(ports, port);
  }

  /** After a removal the port is gone, except when it is the default port and was the only one listed. */
  lemma RemovedUnlessDefault(ports: seq<int>, port: int, mysqlPort: int)
    requires ports != []
    ensures port in Removed(ports, port, mysqlPort) <==> port == mysqlPort && forall p | p in ports :: p == port
  {
    var rest := Without(ports, port);
    if rest == [] {
      assert forall p | p in ports && p != port :: p in rest;
    } else {
      assert rest[0] in rest;
    }
  }

  /** How the statements that write the variable end. */
  datatype WriteCourse = Done | LoadFails | UpdateFails

  /** Exactly when an add after a failed read loses no port: all listed ones are the default or the new one. */
  lemma BlindAddKeeps(ports: seq<int>, port: int, mysqlPort: int)
    ensures (forall p | p in ports :: p in Added([mysqlPort], port)) <==>
            forall p | p in ports :: p == mysqlPort || p == port
  {
  }

  class ListeningPorts {
    var interfaces: Option<string>    // the value of mysql-interfaces in global_variables
    const mysqlPort: int

    constructor (interfaces: Option<string>, mysqlPort: int)
      ensures this.interfaces == interfaces && this.mysqlPort == mysqlPort
    {
      this.interfaces := interfaces;
      this.mysqlPort := mysqlPort;
    }

    ghost function Ports(): (ports: seq<int>)
      reads this
      ensures ports != []
    {
      Parse(interfaces, mysqlPort)
    }

    /** The default port when the variable cannot be read. */
    function Seen(readable: bool): (ports: seq<int>)
      reads this
      ensures ports != []
    {
      if readable then Parse(interfaces, mysqlPort) else [mysqlPort]
    }

    method GetListeningPorts(readable: bool) returns (ports: seq<int>)
      ensures ports == Seen(readable)
    {
      ports := if readable then Parse(interfaces, mysqlPort) else [mysqlPort];
    }

    /** The UPDATE and the LOAD after it; tells whether both ran. */
    method Write(ports: seq<int>, write: WriteCourse) returns (ok: bool)
      requires ports != []
      modifies this
      ensures ok <==> write.Done?
      ensures Ports() == if write.UpdateFails? then old(Ports()) else ports
      ensures interfaces == if write.UpdateFails? then old(interfaces) else Some(Print(ports))
    {
      if !write.UpdateFails? {
        RoundTrip(ports, mysqlPort);
        interfaces := Some(Print(ports));
      }
      ok := write.Done?;
    }

    /** After a failed read the list starts again from the default port. */
    method AddListeningPort(port: int, readable: bool, write: WriteCourse) returns (ok: bool)
      modifies this
      ensures ok <==> port in old(Seen(readable)) || write.Done?
      ensures Ports() == if port in old(Seen(readable)) || write.UpdateFails? then old(Ports())
                         else Added(old(Seen(readable)), port)
      ensures port in old(Seen(readable)) || write.UpdateFails? ==> interfaces == old(interfaces)
      ensures port !in old(Seen(readable)) && !write.UpdateFails? ==>
                interfaces == Some(Print(old(Seen(readable)) + [port]))
    {
      var current := GetListeningPorts(readable);
      if port in current {
        return true;
      }
      ok := Write(current + [port], write);
    }

    method RemoveListeningPort(port: int, readable: bool, write: WriteCourse) returns (ok: bool)
      modifies this
      ensures ok <==> port !in old(Seen(readable)) || write.Done?
      ensures Ports() == if port !in old(Seen(readable)) || write.UpdateFails? then old(Ports())
                         else Removed(old(Seen(readable)), port, mysqlPort)
      ensures port !in old(Seen(readable)) || write.UpdateFails? ==> interfaces == old(interfaces)
      ensures port in old(Seen(readable)) && !write.UpdateFails? ==>
                interfaces == Some(Print(Removed(old(Seen(readable)), port, mysqlPort)))
    {
      var current := GetListeningPorts(readable);
      if port !in current {
        return true;
      }
      var rest := Without(current, port);
      ok := Write(if |rest| > 0 then rest else [mysqlPort], write);
    }
  }
}
