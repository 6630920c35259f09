/** Texts read from rest, and what the terminal makes of them. */
module Texts {
  import opened Sequences
  import opened Buffer
  import opened Emulator
  import opened Parser
  import opened Replays

  /** Read from rest, the text is these commands and leaves the parser at rest. */
  predicate Reads(text: Text, cmds: seq<Cmd>) { Scan(Ground, text, 0) == Scanned(Ground, [], cmds, false) }

  /** Sent to a terminal at rest in state e, the text brings it to state r. */
  ghost predicate Gives(e: Emu, text: Text, r: Emu)
    requires EmuInv(e)
  {
    Runs(e, Ground, text) && After(e, Ground, text) == r
  }

  predicate IsPlain(u: CodeUnit) { !IsHigh(u) && !IsLow(u) }

  lemma ReadsNothing()
    ensures Reads([], [])
  {
  }

  lemma ReadsBoth(a: Text, x: seq<Cmd>, b: Text, y: seq<Cmd>)
    requires Reads(a, x) && Reads(b, y)
    ensures Reads(a + b, x + y)
  {
    hide Scan;
    CleanCutsDoNotMatter(Ground, a, b);
  }

  /** The reading of a text is the reading of no other commands. */
  lemma ReadsWellFormed(text: Text, cmds: seq<Cmd>)
    requires Reads(text, cmds)
    ensures AllWellFormed(cmds)
  {
    hide Scan;
    assert AllWellFormed(Scan(Ground, text, 0).cmds);
  }

  /** One unit from rest. */
  lemma ReadsUnit(u: CodeUnit, cmds: seq<Cmd>)
    requires IsPlain(u) && React(Ground, [u], u) == Reaction(Ground, cmds, 1)
    ensures Reads([u], cmds)
  {
    hide Scan, React;
    Unit(Ground, u, []);
    ReadsNothing();
    assert [u] + [] == [u] && cmds + [] == cmds;
  }

  /** ESC and one unit. */
  lemma ReadsEscape(u: CodeUnit, cmds: seq<Cmd>)
    requires IsPlain(u) && React(Escape, [u], u) == Reaction(Ground, cmds, 1)
    ensures Reads([ESC, u], cmds)
  {
    EscapeOpens([u]);
    hide Scan, React;
    assert [ESC, u] == [ESC] + [u];
    Unit(Escape, u, []);
    ReadsNothing();
    assert [u] + [] == [u] && cmds + [] == cmds;
  }

  lemma EscapeOpens(rest: Text)
    ensures Scan(Ground, [ESC] + rest, 0) == Scan(Escape, rest, 0)
  {
    hide Scan;
    Unit(Ground, ESC, rest);
    PrependNothing(Scan(Escape, rest, 0));
  }

  lemma ReadsCsi(prefix: Text, ps: seq<nat>, final: CodeUnit)
    requires |ps| >= 1 && IsFinal(final) && (prefix == [] || (|prefix| == 1 && IsPrefix(prefix[0])))
    ensures Reads(Encode(prefix, ps, final), [Csi(final, ps, prefix)])
  {
    hide Scan, Encode;
    CsiRoundTrip(prefix, ps, final, []);
    ReadsNothing();
    assert Encode(prefix, ps, final) + [] == Encode(prefix, ps, final);
    assert [Csi(final, ps, prefix)] + [] == [Csi(final, ps, prefix)];
  }

  lemma NothingGives(e: Emu, text: Text)
    requires EmuInv(e) && Reads(text, [])
    ensures Gives(e, text, e)
  {
  }

  lemma OneGives(e: Emu, text: Text, c: Cmd)
    requires EmuInv(e) && Reads(text, [c]) && WellFormed(c)
    ensures Runs(e, Ground, text) <==> Admissible(e, c)
    ensures Admissible(e, c) ==> EmuInv(Exec(e, c)) && Gives(e, text, Exec(e, c))
  {
    hide Exec, Admissible, EmuInv, WellFormed;
    SingleCommand(e, c);
    ExecKeepsInvariant(e, c);
  }

  /** What a text gives is the state after it. */
  lemma Given(e: Emu, text: Text)
    requires EmuInv(e)
    ensures forall r {:trigger Gives(e, text, r)} :: Gives(e, text, r) ==> Runs(e, Ground, text) && After(e, Ground, text) == r
  {
  }

  /** Texts in a row. */
  lemma BothGive(e: Emu, a: Text, x: seq<Cmd>, b: Text, y: seq<Cmd>)
    requires EmuInv(e) && Reads(a, x) && Reads(b, y)
    ensures Runs(e, Ground, a + b) <==> Runs(e, Ground, a) && Runs(After(e, Ground, a), Ground, b)
    ensures Runs(e, Ground, a + b) ==> Gives(e, a + b, After(After(e, Ground, a), Ground, b))
  {
    hide Scan, AdmissibleAll, ExecAll, EmuInv;
    ChunkIndependence(e, Ground, a, b);
  }
}
