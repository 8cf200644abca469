/** The keyboard input report of the HID device (HID 1.11, appendix B.1): one byte of modifier bits, a
    reserved byte and six slots for the keys held, edited in place by set and clear. */
module KeyboardReport {

  const SLOTS := 6

  /** The modifier bits and the keys in the slots, in order. */
  datatype Keys = Keys(mods: bv8, held: seq<bv8>)

  /** The bit of a modifier key; no bit for every other key. */
  function Mask(key: bv16): bv8 {
    match key
    case 0x1001 => 0x01
    case 0x1002 => 0x02
    case 0x1004 => 0x04
    case 0x1008 => 0x08
    case 0x1010 => 0x10
    case 0x1020 => 0x20
    case 0x1040 => 0x40
    case 0x1080 => 0x80
    case _ => 0
  }

  /** What a slot keeps of a 16-bit key. */
  function Low(key: bv16): bv8 {
    (key & 0xFF) as bv8
  }

  /** Slots are compared with the whole key. */
  predicate Same(slot: bv8, key: bv16) {
    slot as bv16 == key
  }

  /** The first slot that shows the key, or the number of slots in use. */
  function Find(held: seq<bv8>, key: bv16): (i: nat)
    ensures i <= |held| && (i < |held| ==> Same(held[i], key))
    ensures forall j :: 0 <= j < i ==> !Same(held[j], key)
  {
    if held == [] || Same(held[0], key) then 0 else 1 + Find(held[1..], key)
  }

  function AfterSet(k: Keys, key: bv16): Keys {
    if Mask(key) != 0 then k.(mods := k.mods | Mask(key))
    else if Find(k.held, key) < |k.held| || |k.held| >= SLOTS || Low(key) == 0 then k
    else k.(held := k.held + [Low(key)])
  }

  function AfterClear(k: Keys, key: bv16): Keys {
    if Mask(key) != 0 then k.(mods := k.mods & !Mask(key))
    else
      var i := Find(k.held, key);
      if i < |k.held| then k.(held := k.held[..i] + k.held[i + 1..]) else k
  }

  lemma ZeroShowsNothing(key: bv16)
    ensures Same(0, key) ==> Low(key) == 0
  {
  }

  class Keyboard {
    const report: array<bv8>
    ghost var held: seq<bv8>

    /** The keys held fill the slots without a gap; the slots behind them are zero. */
    ghost predicate Valid()
      reads this, report
    {
      && report.Length == 2 + SLOTS && |held| <= SLOTS
      && (forall i :: 2 <= i < 2 + SLOTS ==> report[i] == if i - 2 < |held| then held[i - 2] else 0)
      && (forall i :: 0 <= i < |held| ==> held[i] != 0)
    }

    ghost function Now(): Keys
      reads this, report
      requires Valid()
    {
      Keys(report[0], held)
    }

    constructor ()
      ensures Valid() && Now() == Keys(0, []) && fresh(report)
    {
      report := new bv8[2 + SLOTS](_ => 0);
      held := [];
    }

    /** usb_hid_set_keyboard_report. */
    method Set(key: bv16)
      requires Valid()
      modifies this, report
      ensures Valid() && Now() == AfterSet(old(Now()), key) && report[1] == old(report[1])
    {
      ZeroShowsNothing(key);
      hide Find, Mask, Low, Same;
      var mask := Mask(key);
      if mask != 0 {
        report[0] := report[0] | mask;
        return;
      }
      var i := 2;
      while i < 2 + SLOTS
        invariant 2 <= i <= 2 + |held| && forall j :: 0 <= j < i - 2 ==> !Same(held[j], key)
        invariant held == old(held) && forall j :: 0 <= j < 8 ==> report[j] == old(report[j])
      {
        if Same(report[i], key) {
          break;
        }
        if report[i] == 0 {
          report[i] := Low(key);
          held := if Low(key) == 0 then held else held + [Low(key)];
          break;
        }
        i := i + 1;
      }
    }

    /** usb_hid_clear_keyboard_report. */
    method Clear(key: bv16)
      requires Valid()
      modifies this, report
      ensures Valid() && Now() == AfterClear(old(Now()), key) && report[1] == old(report[1])
    {
      hide Find, Mask, Low, Same;
      var mask := Mask(key);
      if mask != 0 {
        report[0] := report[0] & !mask;
        return;
      }
      var i := 2;
      while i < 2 + SLOTS
        invariant 2 <= i <= 2 + SLOTS && forall j :: 0 <= j < |held| && j < i - 2 ==> !Same(held[j], key)
        invariant held == old(held) && forall j :: 0 <= j < 8 ==> report[j] == old(report[j])
      {
        if Same(report[i], key) {
          Close(i);
          break;
        }
        i := i + 1;
      }
    }

    /** The inner loop: the slot i is emptied and those behind it move up. */
    method Close(i: nat)
      requires Valid() && 2 <= i < 2 + SLOTS
      modifies this`held, report
      ensures Valid() && report[0] == old(report[0]) && report[1] == old(report[1])
      ensures held == if i - 2 < |old(held)| then old(held)[..i - 2] + old(held)[i - 1..] else old(held)
    {
      ghost var n := |held|;
      report[i] := 0;
      var k := i;
      while k < 7
        invariant i <= k <= 7 && held == old(held)
        invariant forall j :: 0 <= j < i ==> report[j] == old(report[j])
        invariant forall j :: i <= j < k ==> report[j] == old(report[j + 1])
        invariant report[k] == 0
        invariant forall j :: k < j < 8 ==> report[j] == old(report[j])
        invariant k == i || k < 2 + n
      {
        if report[k + 1] != 0 {
          report[k] := report[k + 1];
          report[k + 1] := 0;
        } else {
          break;
        }
        k := k + 1;
      }
      held := if i - 2 < n then held[..i - 2] + held[i - 1..] else held;
    }
  }

  // ----- runs

  datatype Event = Press(key: bv16) | Release(key: bv16)

  function Step(k: Keys, e: Event): Keys {
    match e
    case Press(key) => AfterSet(k, key)
    case Release(key) => AfterClear(k, key)
  }

  function Run(es: seq<Event>): Keys {
    if es == [] then Keys(0, []) else Step(Run(es[..|es| - 1]), es[|es| - 1])
  }

  /** Keys that belong into a slot and fit it. */
  predicate Plain(key: bv16) {
    Mask(key) == 0 && 0 < key < 0x100
  }

  predicate Ordinary(es: seq<Event>) {
    forall i :: 0 <= i < |es| ==> Plain(es[i].key) || Mask(es[i].key) != 0
  }

  predicate Distinct(s: seq<bv8>) {
    forall i, j :: 0 <= i < j < |s| ==> s[i] != s[j]
  }

  /** Whether the last event about the key was a press. */
  predicate Down(es: seq<Event>, key: bv16) {
    es != [] && (if es[|es| - 1].key == key then es[|es| - 1].Press? else Down(es[..|es| - 1], key))
  }

  function Without(s: seq<bv8>, b: bv8): (r: seq<bv8>)
    ensures forall x :: x in r <==> x in s && x != b
    ensures b !in s ==> r == s
  {
    if s == [] then []
    else
      assert s == [s[0]] + s[1..];
      if s[0] == b then Without(s[1..], b) else [s[0]] + Without(s[1..], b)
  }

  lemma {:induction false} WithoutDistinct(s: seq<bv8>, b: bv8)
    requires Distinct(s)
    ensures Distinct(Without(s, b))
  {
    if s != [] {
      WithoutDistinct(s[1..], b);
      assert s[0] !in s[1..];
    }
  }

  /** The plain keys that are down, in the order in which they were pressed: a list without a limit. */
  function Pressed(es: seq<Event>): seq<bv8> {
    if es == [] then []
    else
      var (p, e) := (Pressed(es[..|es| - 1]), es[|es| - 1]);
      var b := Low(e.key);
      if !Plain(e.key) then p
      else if e.Release? then Without(p, b)
      else if b in p then p else p + [b]
  }

  lemma SameIsEqual(slot: bv8, key: bv16)
    requires key < 0x100
    ensures Same(slot, key) <==> slot == Low(key)
  {
  }

  lemma LowIsInjective(a: bv16, b: bv16)
    requires a < 0x100 && b < 0x100 && Low(a) == Low(b)
    ensures a == b
  {
  }

  lemma {:induction false} Removal(s: seq<bv8>, b: bv8, i: nat)
    requires Distinct(s) && i < |s| && s[i] == b
    ensures s[..i] + s[i + 1..] == Without(s, b)
  {
    assert s == [s[0]] + s[1..];
    if i > 0 {
      Removal(s[1..], b, i - 1);
    } else {
      assert b !in s[1..];
    }
  }

  /** Finding a plain key is finding its byte. */
  lemma FindPlain(held: seq<bv8>, key: bv16)
    requires key < 0x100
    ensures Find(held, key) < |held| <==> Low(key) in held
  {
    var i := Find(held, key);
    if i < |held| {
      SameIsEqual(held[i], key);
    } else {
      forall j | 0 <= j < |held|
        ensures held[j] != Low(key)
      {
        SameIsEqual(held[j], key);
      }
    }
  }

  /** What a plain key does to the slots. */
  lemma PlainStep(k: Keys, e: Event)
    requires Plain(e.key) && Distinct(k.held)
    ensures var (held, b) := (k.held, Low(e.key));
            && b != 0
            && Step(k, e).held == if e.Release? then Without(held, b)
                                  else if b in held || |held| >= SLOTS then held else held + [b]
  {
    var i := Find(k.held, e.key);
    FindPlain(k.held, e.key);
    SameIsEqual(0, e.key);
    if i < |k.held| {
      SameIsEqual(k.held[i], e.key);
      Removal(k.held, Low(e.key), i);
    }
  }

  lemma ModifierStep(k: Keys, e: Event)
    requires Mask(e.key) != 0
    ensures Step(k, e).held == k.held
  {
  }

  lemma AppendDistinct(s: seq<bv8>, b: bv8)
    requires Distinct(s) && b !in s
    ensures Distinct(s + [b])
  {
  }

  /** In any run the slots hold distinct keys, none zero, at most six, and only keys that are down. */
  lemma {:induction false} SlotsShowKeysDown(es: seq<Event>)
    requires Ordinary(es)
    ensures var held := Run(es).held;
            && Distinct(held) && 0 !in held && |held| <= 6 && Distinct(Pressed(es))
            && forall b :: b in held ==> b in Pressed(es)
    decreases |es|
  {
    if es != [] {
      hide Mask, Low, Find, Step, Without, Plain, Distinct;
      var (ds, e) := (es[..|es| - 1], es[|es| - 1]);
      SlotsShowKeysDown(ds);
      if Plain(e.key) {
        PlainStep(Run(ds), e);
        WithoutDistinct(Run(ds).held, Low(e.key));
        WithoutDistinct(Pressed(ds), Low(e.key));
        if Low(e.key) !in Run(ds).held {
          AppendDistinct(Run(ds).held, Low(e.key));
        }
        if Low(e.key) !in Pressed(ds) {
          AppendDistinct(Pressed(ds), Low(e.key));
        }
      } else {
        ModifierStep(Run(ds), e);
      }
    }
  }

  /** The list of the keys that are down is just that. */
  lemma {:induction false} PressedIsDown(es: seq<Event>, key: bv16)
    requires Plain(key)
    ensures Low(key) in Pressed(es) <==> Down(es, key)
    decreases |es|
  {
    if es != [] {
      hide Low, Mask;
      var e := es[|es| - 1];
      PressedIsDown(es[..|es| - 1], key);
      if Plain(e.key) && Low(e.key) == Low(key) {
        LowIsInjective(e.key, key);
      }
    }
  }

  /** As long as never more than six keys are down, the slots are the list of the keys down. */
  lemma {:induction false} SlotsAreExact(es: seq<Event>)
    requires Ordinary(es) && forall n :: 0 <= n <= |es| ==> |Pressed(es[..n])| <= 6
    ensures Run(es).held == Pressed(es)
    decreases |es|
  {
    if es != [] {
      var (ds, e) := (es[..|es| - 1], es[|es| - 1]);
      forall n | 0 <= n <= |ds|
        ensures |Pressed(ds[..n])| <= 6
      {
        assert ds[..n] == es[..n];
      }
      SlotsAreExact(ds);
      SlotsShowKeysDown(ds);
      assert es[..|es|] == es;
      if Plain(e.key) {
        PlainStep(Run(ds), e);
      }
    }
  }

  /** The report is exact all through a run if and only if never more than six keys are down. */
  lemma ExactWhileSix(es: seq<Event>)
    requires Ordinary(es)
    ensures (forall n :: 0 <= n <= |es| ==> Run(es[..n]).held == Pressed(es[..n]))
            <==> (forall n :: 0 <= n <= |es| ==> |Pressed(es[..n])| <= 6)
  {
    forall n | 0 <= n <= |es|
      ensures |Run(es[..n]).held| <= 6
    {
      SlotsShowKeysDown(es[..n]);
    }
    if forall n :: 0 <= n <= |es| ==> |Pressed(es[..n])| <= 6 {
      forall n | 0 <= n <= |es|
        ensures Run(es[..n]).held == Pressed(es[..n])
      {
        forall k | 0 <= k <= n
          ensures |Pressed(es[..n][..k])| <= 6
        {
          assert es[..n][..k] == es[..k];
        }
        SlotsAreExact(es[..n]);
      }
    }
  }

  /** Every modifier bit follows its own key and no other, whatever else is pressed. */
  lemma {:induction false} ModifiersAreIndependent(es: seq<Event>, key: bv16)
    requires Mask(key) != 0
    ensures Run(es).mods & Mask(key) != 0 <==> Down(es, key)
    decreases |es|
  {
    if es != [] {
      var e := es[|es| - 1];
      hide Mask, Step;
      ModifiersAreIndependent(es[..|es| - 1], key);
      StepMods(Run(es[..|es| - 1]), e);
      Bits(Run(es[..|es| - 1]).mods, e.key, key);
    }
  }

  /** The bits are those of the report format: a key has a bit if and only if it is the code 1000h plus one
      of the eight bits, and then it is that bit. */
  lemma MaskIsCode(key: bv16)
    ensures Mask(key) != 0 <==> 0x1000 < key <= 0x1080 && (key - 0x1000) & (key - 0x1001) == 0
    ensures Mask(key) != 0 ==> 0x1000 | Mask(key) as bv16 == key
  {
  }

  lemma StepMods(k: Keys, e: Event)
    ensures Step(k, e).mods == if e.Press? then k.mods | Mask(e.key) else k.mods & !Mask(e.key)
  {
    hide Mask, Low, Find, Same;
    if Mask(e.key) == 0 {
      NoBits(k.mods);
    }
  }

  lemma NoBits(mods: bv8)
    ensures mods | 0 == mods && mods & !(0 as bv8) == mods
  {
  }

  lemma Bits(mods: bv8, a: bv16, b: bv16)
    requires Mask(b) != 0
    ensures (mods | Mask(a)) & Mask(b) != 0 <==> a == b || mods & Mask(b) != 0
    ensures mods & !Mask(a) & Mask(b) != 0 <==> a != b && mods & Mask(b) != 0
  {
  }

  /** The comparison uses all 16 bits of a key, the slot keeps eight: pressing a key keeps the slots
      distinct if and only if it is a modifier, or finds no free slot, or fits a byte, or its low byte is
      zero or not shown yet. */
  lemma SetKeepsDistinct(k: Keys, key: bv16)
    requires Distinct(k.held)
    ensures Distinct(AfterSet(k, key).held)
            <==> Mask(key) != 0 || |k.held| >= SLOTS || key < 0x100 || Low(key) == 0 || Low(key) !in k.held
  {
    var held := k.held;
    if Mask(key) == 0 && |held| < SLOTS {
      if key < 0x100 {
        FindPlain(held, key);
      } else {
        WideIsNotFound(held, key);
        if Low(key) in held {
          var i :| 0 <= i < |held| && held[i] == Low(key);
          assert (held + [Low(key)])[i] == (held + [Low(key)])[|held|];
        }
      }
    }
  }

  /** A key that does not fit a slot is never found there, so clearing it does nothing. */
  lemma WideIsNotFound(held: seq<bv8>, key: bv16)
    requires key >= 0x100
    ensures Find(held, key) == |held|
  {
    forall j | 0 <= j < |held|
      ensures !Same(held[j], key)
    {
    }
  }
}
