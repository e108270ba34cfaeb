/** Header lines as both printers of the server write them: `name: value` followed by CRLF. */
module HeaderText {
  import opened Text

  type Header = (string, string)

  function Line(h: Header): string {
    h.0 + ": " + h.1
  }

  function Field(key: string, value: string): string {
    Line((key, value)) + CRLF
  }

  function Lines(hs: seq<Header>): seq<string> {
    seq(|hs|, i requires 0 <= i < |hs| => Line(hs[i]))
  }

  /** Header lines as they are printed. */
  function Print(hs: seq<Header>): string {
    if hs == [] then "" else Print(hs[..|hs| - 1]) + Field(hs[|hs| - 1].0, hs[|hs| - 1].1)
  }

  /** Appending one printed header. */
  lemma Emit(start: string, hs: seq<Header>, key: string, value: string)
    ensures start + Print(hs) + Field(key, value) == start + Print(hs + [(key, value)])
  {
    assert (hs + [(key, value)])[..|hs|] == hs;
  }

  /** `out += key + ": " + value + "\r\n"`, keeping track of the headers printed so far. */
  method EmitField(ghost start: string, ghost hs: seq<Header>, out: string, key: string, value: string)
    returns (longer: string, ghost more: seq<Header>)
    requires out == start + Print(hs)
    ensures longer == out + Field(key, value)
    ensures more == hs + [(key, value)] && longer == start + Print(more)
  {
    Emit(start, hs, key, value);
    longer, more := out + Field(key, value), hs + [(key, value)];
  }

  // ---------------------------------------------------------------------------------------------
  // Printed lines
  // ---------------------------------------------------------------------------------------------

  /** A header that prints as one line with a recognisable name. */
  ghost predicate Printable(h: Header) {
    OneLine(h.0) && OneLine(h.1) && ':' !in h.0 && (h.0 != "" ==> h.0[0] != '\r')
  }

  ghost predicate AllPrintable(hs: seq<Header>) {
    forall i :: 0 <= i < |hs| ==> Printable(hs[i])
  }

  lemma RestPrintable(hs: seq<Header>)
    requires hs != [] && AllPrintable(hs)
    ensures AllPrintable(hs[1..]) && OneLine(Line(hs[0]) + "\r") && Line(hs[0]) != ""
  {
    assert Printable(hs[0]);
  }

  lemma SectionOfLines(hs: seq<Header>)
    requires hs != []
    ensures Line(hs[0]) != "" && Lines(hs) != []
    ensures |hs| == 1 ==> Section(Lines(hs)) == Line(hs[0])
    ensures |hs| > 1 ==> Lines(hs[1..]) != []
    ensures |hs| > 1 ==> Section(Lines(hs)) == (Line(hs[0]) + "\r") + ['\n'] + Section(Lines(hs[1..]))
  {
    assert Lines(hs)[1..] == Lines(hs[1..]);
  }

  lemma {:induction false} PrintIsTerminated(hs: seq<Header>)
    ensures Print(hs) == Terminated(Lines(hs))
  {
    if hs != [] {
      var init, last := hs[..|hs| - 1], hs[|hs| - 1];
      PrintIsTerminated(init);
      assert Lines(hs) == Lines(init) + [Line(last)];
      TerminatedAppend(Lines(init), Line(last));
    }
  }

  lemma MessageLines(first: string, hs: seq<Header>)
    requires OneLine(first) && hs != [] && AllPrintable(hs)
    ensures WellFormedLines([first] + Lines(hs))
    ensures Terminated([first] + Lines(hs)) == first + CRLF + Print(hs)
    ensures Section([first] + Lines(hs)) == first + CRLF + Section(Lines(hs))
  {
    var lines := [first] + Lines(hs);
    assert lines[1..] == Lines(hs);
    PrintIsTerminated(hs);
    forall i | 0 < i < |lines| ensures OneLine(lines[i]) && lines[i] != "" && lines[i][0] != '\r' {
      assert lines[i] == Line(hs[i - 1]) && Printable(hs[i - 1]);
    }
  }
}
