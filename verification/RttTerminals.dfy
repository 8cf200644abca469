/** The virtual terminals of one channel: the codes the target puts between its bytes, and the host that
    sorts the bytes onto terminals by them. */
module RttTerminals {
  import opened Machine

  datatype Option<T> = None | Some(value: T)

  /** The two bytes that switch the host's display to terminal id. */
  function SwitchCode(id: nat): (c: seq<byte>)
    requires id < 16
    ensures |c| == 2
  {
    [0xFF, if id < 10 then 0x30 + id else 0x41 + (id - 10)]
  }

  /** What SEGGER_RTT_TerminalOut puts on the wire around the text s. */
  function TerminalFrame(id: nat, s: seq<byte>, active: nat): (f: seq<byte>)
    requires id < 16 && active < 16
    ensures |f| == |s| + 4
  {
    SwitchCode(id) + s + SwitchCode(active)
  }

  /** The three pieces of a frame, each added to what is there. */
  lemma FramePieces(p: seq<byte>, id: nat, s: seq<byte>, active: nat, k: nat)
    requires id < 16 && active < 16
    ensures var f := TerminalFrame(id, s, active);
            && (k <= 2 ==> p + SwitchCode(id)[..k] == p + f[..k])
            && (k <= |s| ==> p + f[..2] + s[..k] == p + f[..2 + k])
            && (k <= 2 ==> p + f[..2 + |s|] + SwitchCode(active)[..k] == p + f[..2 + |s| + k])
            && f[..|s| + 4] == f
  {
    hide SwitchCode;
    var f := TerminalFrame(id, s, active);
    if k <= 2 {
      assert SwitchCode(id)[..k] == f[..k];
      assert f[..2 + |s|] + SwitchCode(active)[..k] == f[..2 + |s| + k];
    }
    if k <= |s| {
      assert f[..2] + s[..k] == f[..2 + k];
    }
  }

  // ----- the host

  /** The terminal a byte behind 0xFF names: a digit, or a letter from 'A' on. */
  function Named(b: byte): (r: Option<nat>)
    ensures r.Some? ==> r.value < 16
  {
    if '0' as int <= b <= '9' as int then Some(b - '0' as int)
    else if 'A' as int <= b <= 'F' as int then Some(b - 'A' as int + 10)
    else None
  }

  /** The stream begins with a switch. */
  predicate Switches(s: seq<byte>) {
    |s| >= 2 && s[0] == 0xFF && Named(s[1]).Some?
  }

  /** The terminal on display after s, when it was t before. */
  function Terminal(t: nat, s: seq<byte>): nat
    decreases |s|
  {
    if s == [] then t else if Switches(s) then Terminal(Named(s[1]).value, s[2..]) else Terminal(t, s[1..])
  }

  /** Every byte shown, with the terminal it is shown on. */
  function Screen(t: nat, s: seq<byte>): seq<(nat, byte)>
    decreases |s|
  {
    if s == [] then []
    else if Switches(s) then Screen(Named(s[1]).value, s[2..])
    else [(t, s[0])] + Screen(t, s[1..])
  }

  /** The bytes of s, all on terminal id. */
  function On(id: nat, s: seq<byte>): (r: seq<(nat, byte)>)
    ensures |r| == |s|
  {
    seq(|s|, i requires 0 <= i < |s| => (id, s[i]))
  }

  /** The text holds no switch of its own. */
  predicate Plain(s: seq<byte>) {
    forall i :: 0 <= i < |s| - 1 ==> s[i] == 0xFF ==> Named(s[i + 1]).None?
  }

  // ----- what the codes mean to the host

  /** The code of a terminal names that terminal. */
  lemma SwitchNames(id: nat)
    requires id < 16
    ensures SwitchCode(id)[0] == 0xFF && Named(SwitchCode(id)[1]) == Some(id)
  {
  }

  /** Hence no two terminals share a code. */
  lemma SwitchesDiffer(i: nat, j: nat)
    requires i < 16 && j < 16 && SwitchCode(i) == SwitchCode(j)
    ensures i == j
  {
    SwitchNames(i);
    SwitchNames(j);
  }

  /** A code is recognised behind any bytes, even behind a lone 0xFF. */
  lemma {:induction false} Behind(t: nat, p: seq<byte>, s: seq<byte>)
    requires s == [] || s[0] == 0xFF
    ensures Terminal(t, p + s) == Terminal(Terminal(t, p), s)
    ensures Screen(t, p + s) == Screen(t, p) + Screen(Terminal(t, p), s)
    decreases |p|
  {
    if p == [] {
      assert p + s == s;
    } else if Switches(p) {
      assert (p + s)[2..] == p[2..] + s;
      Behind(Named(p[1]).value, p[2..], s);
    } else {
      assert !Switches(p + s);
      assert (p + s)[1..] == p[1..] + s;
      Behind(t, p[1..], s);
    }
  }

  lemma CodeShown(t: nat, id: nat, s: seq<byte>)
    requires id < 16
    ensures Terminal(t, SwitchCode(id) + s) == Terminal(id, s)
    ensures Screen(t, SwitchCode(id) + s) == Screen(id, s)
  {
    SwitchNames(id);
    assert (SwitchCode(id) + s)[2..] == s;
  }

  /** Whatever was sent before, after the code of id the display is on id and nothing more is shown. */
  lemma SwitchShown(t: nat, p: seq<byte>, id: nat)
    requires id < 16
    ensures Terminal(t, p + SwitchCode(id)) == id && Screen(t, p + SwitchCode(id)) == Screen(t, p)
  {
    Behind(t, p, SwitchCode(id));
    CodeShown(Terminal(t, p), id, []);
    assert SwitchCode(id) + [] == SwitchCode(id);
  }

  /** Text appears on the terminal on display if and only if it holds no switch of its own. */
  lemma {:induction false} TextShown(id: nat, s: seq<byte>)
    ensures |Screen(id, s)| <= |s|
    ensures Screen(id, s) == On(id, s) <==> Plain(s)
    decreases |s|
  {
    if s == [] {
    } else if Switches(s) {
      TextShown(Named(s[1]).value, s[2..]);
      assert s[0] == 0xFF && Named(s[0 + 1]).Some?;
    } else {
      TextShown(id, s[1..]);
      assert On(id, s) == [(id, s[0])] + On(id, s[1..]);
      assert On(id, s)[1..] == On(id, s[1..]);
      PlainRest(s);
    }
  }

  lemma PlainRest(s: seq<byte>)
    requires s != [] && !Switches(s)
    ensures Plain(s) <==> Plain(s[1..])
  {
    if Plain(s[1..]) {
      forall i | 0 <= i < |s| - 1 && s[i] == 0xFF
        ensures Named(s[i + 1]).None?
      {
        if i > 0 {
          assert s[1..][i - 1] == 0xFF ==> Named(s[1..][i - 1 + 1]).None?;
        }
      }
    }
    if Plain(s) {
      forall i | 0 <= i < |s[1..]| - 1 && s[1..][i] == 0xFF
        ensures Named(s[1..][i + 1]).None?
      {
        assert s[i + 1] == 0xFF ==> Named(s[i + 1 + 1]).None?;
      }
    }
  }

  /** The frame of SEGGER_RTT_TerminalOut, behind anything: the display ends on the active terminal, and
      what is added to it is the text, on terminal id, if and only if the text holds no switch. */
  lemma FrameShown(t: nat, p: seq<byte>, id: nat, text: seq<byte>, active: nat)
    requires id < 16 && active < 16
    ensures var s := p + TerminalFrame(id, text, active);
            && Terminal(t, s) == active
            && (Screen(t, s) == Screen(t, p) + On(id, text) <==> Plain(text))
  {
    var (frame, back) := (TerminalFrame(id, text, active), SwitchCode(active));
    assert frame == SwitchCode(id) + (text + back);
    Behind(t, p, frame);
    CodeShown(Terminal(t, p), id, text + back);
    SwitchShown(id, text, active);
    TextShown(id, text);
    if Screen(t, p) + Screen(id, text) == Screen(t, p) + On(id, text) {
      assert (Screen(t, p) + Screen(id, text))[|Screen(t, p)|..] == Screen(id, text);
      assert (Screen(t, p) + On(id, text))[|Screen(t, p)|..] == On(id, text);
    }
  }
}
