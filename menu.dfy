/**
 * The two input widgets of the menus: Entry, a text field that accepts digits
 * and dots (the server menu's address and port), and Option, a selector that
 * cycles through a list of values (the volume settings). The configuration file
 * each widget writes is modelled as the one value it stores under its own key,
 * and the volume callback as the list of values passed to it; the text, the
 * rectangles and the buttons they draw are left out, a click on a button
 * arriving as a boolean.
 */
module Menu {

  /** The key code of backspace. */
  const Backspace := 8

  /** The characters an Entry accepts. */
  const Accepted := "0123456789."

  /**
   * The text a key types into an Entry: chr(key) when it is an accepted
   * character, nothing otherwise (including a key chr rejects).
   */
  function Typed(key: int): (r: string)
    ensures |r| <= 1
    ensures r != [] <==> exists i | 0 <= i < |Accepted| :: Accepted[i] as int == key
    ensures r != [] ==> r[0] in Accepted && r[0] as int == key
  {
    if key == 46 then
      assert Accepted[10] as int == key;
      ['.']
    else if 48 <= key <= 57 then
      assert Accepted[key - 48] as int == key;
      [key as char]
    else
      assert forall i | 0 <= i < |Accepted| :: Accepted[i] as int == 46 || 48 <= Accepted[i] as int <= 57;
      []
  }

  /**
   * The input after one key on a selected Entry: backspace drops the last
   * character of a non-empty input, an accepted character is appended, and any
   * other key leaves the input as it is.
   */
  function Edited(input: string, key: int): (r: string)
  {
    var erased := if key == Backspace && input != [] then input[..|input| - 1] else input;
    erased + Typed(key)
  }

  /** One key never does more than erase the last character or append an accepted one. */
  lemma EditedShape(input: string, key: int)
    ensures var r := Edited(input, key);
      && (key == Backspace ==> r <= input && |r| == if input == [] then 0 else |input| - 1)
      && (key != Backspace ==> input <= r && |r| <= |input| + 1 && forall i | |input| <= i < |r| :: r[i] in Accepted)
      && (key != Backspace ==> (r == input <==> forall i | 0 <= i < |Accepted| :: Accepted[i] as int != key))
  {
    assert Typed(Backspace) == [];
  }

  /** The input after a run of keys on a selected Entry, first key first. */
  function Typing(input: string, keys: seq<int>): string
    decreases |keys|
  {
    if keys == [] then input else Typing(Edited(input, keys[0]), keys[1..])
  }

  /**
   * A text that is part of `initial` followed by accepted characters only: what an
   * Entry can hold after starting from `initial`.
   */
  ghost predicate Grown(initial: string, s: string)
  {
    exists k | 0 <= k <= |initial| && k <= |s| ::
      s[..k] == initial[..k] && forall i | k <= i < |s| :: s[i] in Accepted
  }

  /** One key keeps an input grown from `initial` grown from it. */
  lemma EditGrows(initial: string, s: string, key: int)
    requires Grown(initial, s)
    ensures Grown(initial, Edited(s, key))
  {
    var k :| 0 <= k <= |initial| && k <= |s| && s[..k] == initial[..k] && forall i | k <= i < |s| :: s[i] in Accepted;
    var r := Edited(s, key);
    EditedShape(s, key);
    if key == Backspace && s != [] {
      assert r == s[..|s| - 1];
      if k < |s| {
        assert r[..k] == s[..k];
        assert forall i | k <= i < |r| :: r[i] == s[i];
      } else {
        assert r[..|r|] == s[..|r|] == initial[..|r|];
      }
    } else {
      assert r[..|s|] == s;
      assert r[..k] == initial[..k];
      assert forall i | k <= i < |r| :: r[i] in Accepted;
    }
  }

  /**
   * Whatever keys reach an Entry, its input stays a part of the value it started
   * with followed by digits and dots.
   */
  lemma {:induction false} TypingGrows(initial: string, keys: seq<int>)
    ensures Grown(initial, Typing(initial, keys))
  {
    assert initial[..|initial|] == initial;
    GrownTyping(initial, initial, keys);
  }

  lemma {:induction false} GrownTyping(initial: string, s: string, keys: seq<int>)
    requires Grown(initial, s)
    ensures Grown(initial, Typing(s, keys))
    decreases |keys|
  {
    if keys != [] {
      EditGrows(initial, s, keys[0]);
      GrownTyping(initial, Edited(s, keys[0]), keys[1..]);
    }
  }

  /** A text field of the server menu, holding the value of one configuration key. */
  class Entry {
    var input: string
    var selected: bool
    /** The value of the entry's key in the configuration. */
    var stored: string

    /** The configuration holds what the entry shows. */
    predicate Saved()
      reads this
    {
      stored == input
    }

    /** Entry.__init__: the input is read from the configuration, and render writes it back. */
    constructor (initial: string)
      ensures input == initial && !selected && Saved()
    {
      input := initial;
      selected := false;
      stored := initial;
    }

    /** Entry.render: the configuration is updated with the input. */
    method Render()
      modifies this`stored
      ensures Saved()
    {
      stored := input;
    }

    /** Entry.click: the entry is selected exactly when the click hits its text. */
    method Click(hit: bool)
      modifies this`selected
      ensures selected == hit
    {
      selected := hit;
    }

    /**
     * Entry.keydown: an unselected entry ignores keys; a selected one takes the
     * key as Edited says, and writes the configuration whenever its input changes.
     */
    method Keydown(key: int)
      modifies this`input, this`stored
      ensures !selected ==> input == old(input) && stored == old(stored)
      ensures selected ==> input == Edited(old(input), key)
      ensures input != old(input) ==> Saved()
      ensures input == old(input) ==> stored == old(stored)
    {
      if !selected {
        return;
      }
      if key == Backspace && input != [] {
        input := input[..|input| - 1];
        Render();
      }
      var typed := Typed(key);
      if typed == [] {
        return;
      }
      input := input + typed;
      Render();
    }
  }

  /**
   * Python's subscript of a non-empty list: a negative index counts from the
   * end. It picks the same element as the index taken modulo the length.
   */
  function Pick(options: seq<int>, index: int): (r: int)
    requires -|options| <= index < |options|
  {
    if index >= 0 then options[index] else options[|options| + index]
  }

  lemma PickModulo(options: seq<int>, index: int)
    requires -|options| <= index < |options|
    ensures Pick(options, index) == options[index % |options|]
  {
    if index < 0 {
      assert index % |options| == |options| + index;
    }
  }

  /**
   * The index after a click on an Option of n values: the left button steps one
   * back and the right button one forward, each wrapping around modulo n
   * (Python's %, which for a positive n is Dafny's).
   */
  function Turned(index: int, left: bool, right: bool, n: int): (r: int)
    requires n > 0
    ensures left || right ==> 0 <= r < n
    ensures !left && !right ==> r == index
  {
    var stepped := if left then (index - 1) % n else index;
    if right then (stepped + 1) % n else stepped
  }

  /** A click moves the index by the buttons' net step, modulo n. */
  lemma TurnedModulo(index: int, left: bool, right: bool, n: int)
    requires n > 0
    ensures Turned(index, left, right, n) % n == (index + (if right then 1 else 0) - (if left then 1 else 0)) % n
  {
    if left && right {
      ModShift(index - 1, 1, n);
      ModShift(index, 0, n);
    } else if left {
      ModShift(index - 1, 0, n);
    } else if right {
      ModShift(index + 1, 0, n);
    }
  }

  /** A left click undone by a right click, and the other way round; on an index in range, exactly. */
  lemma TurnBack(index: int, n: int)
    requires n > 0
    ensures Turned(Turned(index, true, false, n), false, true, n) == index % n
    ensures Turned(Turned(index, false, true, n), true, false, n) == index % n
    ensures 0 <= index < n ==> Turned(Turned(index, true, false, n), false, true, n) == index
  {
    ModShift(index - 1, 1, n);
    ModShift(index + 1, -1, n);
    if 0 <= index < n {
      ModUnique(index, 0, index, n);
    }
  }

  lemma MulAtLeast(k: int, n: int)
    requires n > 0 && k >= 1
    ensures k * n >= n
  {
  }

  /** The remainder is the unique r in [0, n) with a == q * n + r. */
  lemma ModUnique(a: int, q: int, r: int, n: int)
    requires n > 0 && 0 <= r < n && a == q * n + r
    ensures a % n == r
  {
    var q', r' := a / n, a % n;
    assert a == q' * n + r';
    assert (q - q') * n == r' - r;
    if q > q' {
      MulAtLeast(q - q', n);
    } else if q < q' {
      MulAtLeast(q' - q, n);
    }
  }

  /** Adding to a remainder and reducing again is adding to the number. */
  lemma ModShift(a: int, d: int, n: int)
    requires n > 0
    ensures (a % n + d) % n == (a + d) % n
  {
    var b := a % n + d;
    var q, q2 := a / n, b / n;
    assert a == q * n + a % n;
    assert b == q2 * n + b % n;
    assert (q + q2) * n == q * n + q2 * n;
    ModUnique(a + d, q + q2, b % n, n);
  }

  /** A selector of the options menu, holding the value of one configuration key. */
  class Option {
    const options: seq<int>
    var index: int
    var option: int
    /** The value of the option's key in the configuration. */
    var stored: int
    /** The values passed to the option's callback, oldest first. */
    var applied: seq<int>

    /** The index can subscript the options, and the shown option is the one it picks. */
    ghost predicate Valid()
      reads this
    {
      |options| > 0 && -|options| <= index < |options| && option == Pick(options, index)
    }

    /**
     * Option.__init__: the index is read from the configuration and render picks
     * the option; an index Python could not subscript with raises there.
     */
    constructor (options: seq<int>, stored: int)
      requires -|options| <= stored < |options|
      ensures this.options == options && index == stored && this.stored == stored && applied == []
      ensures Valid()
    {
      this.options := options;
      index := stored;
      this.stored := stored;
      applied := [];
      option := Pick(options, stored);
    }

    /** Option.render: the shown option is the one the index picks. */
    method Render()
      requires -|options| <= index < |options|
      modifies this`option
      ensures Valid()
    {
      option := Pick(options, index);
    }

    /**
     * Option.click as written: the index turns, and on a click the configuration
     * and the callback receive the option shown BEFORE the click, since render
     * runs after them.
     */
    method Click(left: bool, right: bool)
      requires Valid()
      modifies this`index, this`option, this`stored, this`applied
      ensures Valid() && index == Turned(old(index), left, right, |options|)
      ensures left || right ==> stored == old(option) && applied == old(applied) + [old(option)]
      ensures !left && !right ==> option == old(option) && stored == old(stored) && applied == old(applied)
    {
      var n := |options|;
      if left {
        index := (index - 1) % n;
      }
      if right {
        index := (index + 1) % n;
      }
      if left || right {
        stored := option;
        applied := applied + [option];
        Render();
      }
    }

    /**
     * Option.click with render run first: the configuration and the callback
     * receive the option the click has just chosen.
     */
    method ClickApplied(left: bool, right: bool)
      requires Valid()
      modifies this`index, this`option, this`stored, this`applied
      ensures Valid() && index == Turned(old(index), left, right, |options|)
      ensures left || right ==> stored == option && applied == old(applied) + [option]
      ensures option == options[index % |options|]
      ensures !left && !right ==> option == old(option) && stored == old(stored) && applied == old(applied)
    {
      var n := |options|;
      if left {
        index := (index - 1) % n;
      }
      if right {
        index := (index + 1) % n;
      }
      PickModulo(options, index);
      if left || right {
        Render();
        stored := option;
        applied := applied + [option];
      }
    }
  }

  /**
   * With the volumes 0 to 100 at 50, a click on the right button shows 51 while
   * Option.click writes 50 to the configuration and passes 50 to the callback.
   */
  lemma StaleVolume()
    ensures var volumes := seq(101, i => i);
      && Pick(volumes, 50) == 50
      && Pick(volumes, Turned(50, false, true, |volumes|)) == 51
  {
  }
}
