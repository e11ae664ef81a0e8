// Key names and Windows key codes (src/Compat/V1/KeyNames.cpp).
module KeyNames {
  import opened Text

  const UNBOUND: nat := 255

  datatype NamedKey = NamedKey(name: string, vk: nat)

  // The table in its order, in parts. The first spelling of a code is the canonical one.
  const EDITING_KEYS: seq<NamedKey> := [
    NamedKey("Space", 0x20), NamedKey("Enter", 0x0D), NamedKey("Return", 0x0D), NamedKey("Tab", 0x09),
    NamedKey("Escape", 0x1B), NamedKey("Backspace", 0x08), NamedKey("Insert", 0x2D), NamedKey("Delete", 0x2E),
    NamedKey("Home", 0x24), NamedKey("End", 0x23)
  ]

  const NAVIGATION_KEYS: seq<NamedKey> := [
    NamedKey("PageUp", 0x21), NamedKey("PageDown", 0x22), NamedKey("Up", 0x26), NamedKey("Down", 0x28),
    NamedKey("Left", 0x25), NamedKey("Right", 0x27), NamedKey("CapsLock", 0x14), NamedKey("NumLock", 0x90),
    NamedKey("ScrollLock", 0x91), NamedKey("Pause", 0x13)
  ]

  const MODIFIER_KEYS: seq<NamedKey> := [
    NamedKey("LShift", 0xA0), NamedKey("RShift", 0xA1), NamedKey("LCtrl", 0xA2), NamedKey("RCtrl", 0xA3),
    NamedKey("LAlt", 0xA4), NamedKey("RAlt", 0xA5), NamedKey("Grave", 0xC0), NamedKey("Tilde", 0xC0),
    NamedKey("Backtick", 0xC0), NamedKey("Console", 0xC0)
  ]

  const OPERATOR_KEYS: seq<NamedKey> := [
    NamedKey("Minus", 0xBD), NamedKey("Hyphen", 0xBD), NamedKey("Dash", 0xBD), NamedKey("Equals", 0xBB),
    NamedKey("Equal", 0xBB), NamedKey("Plus", 0xBB)
  ]

  const BRACKET_KEYS: seq<NamedKey> := [
    NamedKey("LBracket", 0xDB), NamedKey("LeftBracket", 0xDB), NamedKey("RBracket", 0xDD), NamedKey("RightBracket", 0xDD),
    NamedKey("Backslash", 0xDC)
  ]

  const PUNCTUATION_KEYS: seq<NamedKey> := [
    NamedKey("Semicolon", 0xBA), NamedKey("Apostrophe", 0xDE), NamedKey("Quote", 0xDE), NamedKey("Comma", 0xBC),
    NamedKey("Period", 0xBE), NamedKey("Dot", 0xBE), NamedKey("Slash", 0xBF)
  ]

  const NAMED_KEYS: seq<NamedKey> :=
    EDITING_KEYS + NAVIGATION_KEYS + MODIFIER_KEYS + OPERATOR_KEYS + BRACKET_KEYS + PUNCTUATION_KEYS

  function Lookup(rows: seq<NamedKey>, name: string): nat {
    if rows == [] then UNBOUND else if SameFolded(rows[0].name, name) then rows[0].vk else Lookup(rows[1..], name)
  }

  function NameOf(rows: seq<NamedKey>, vk: nat): string {
    if rows == [] then "UNBOUND" else if rows[0].vk == vk then rows[0].name else NameOf(rows[1..], vk)
  }

  predicate IsDigit(c: char) {
    '0' <= c <= '9'
  }

  // std::from_chars on the leading digits; a number too long for an int is above 24 all the same.
  function LeadingNumber(s: string, soFar: nat): nat {
    if s == "" || !IsDigit(s[0]) then soFar else LeadingNumber(s[1..], 10 * soFar + (s[0] as int - '0' as int))
  }

  function MouseCode(i: nat): nat
    requires i < 5
  {
    if i < 2 then i + 1 else i + 2
  }

  function KeyCode(name: string): nat {
    if |name| == 6 && SameFolded(name[..5], "MOUSE") && '1' <= name[5] <= '5' then MouseCode(name[5] as int - '1' as int)
    else if name == "" || SameFolded(name, "UNBOUND") then UNBOUND
    else if |name| >= 2 && LowerChar(name[0]) == 'f' && IsDigit(name[1]) && 1 <= LeadingNumber(name[1..], 0) <= 24 then
      0x70 + LeadingNumber(name[1..], 0) - 1
    else if |name| == 1 && (IsDigit(name[0]) || 'a' <= LowerChar(name[0]) <= 'z') then
      (if 'a' <= name[0] <= 'z' then name[0] as int - 32 else name[0] as int)
    else Lookup(NAMED_KEYS, name)
  }

  // std::to_string for the numbers of function keys.
  function Decimal(n: nat): string
    requires n < 100
  {
    if n < 10 then [(n + '0' as int) as char] else [(n / 10 + '0' as int) as char, (n % 10 + '0' as int) as char]
  }

  function KeyName(vk: nat): string {
    if vk == 1 || vk == 2 || vk == 4 || vk == 5 || vk == 6 then "MOUSE" + Decimal(if vk < 3 then vk else vk - 1)
    else if 0x70 <= vk <= 0x87 then "F" + Decimal(vk - 0x70 + 1)
    else if 0x30 <= vk <= 0x39 || 0x41 <= vk <= 0x5A then [vk as char]
    else NameOf(NAMED_KEYS, vk)
  }

  // ---- the table is consistent ------------------------------------------------------------------------

  // Length, first two and last letters, which folded-equal names share and which tell the table's names apart.
  function Tag(name: string): int
    requires |name| > 1
  {
    |name| * 0x100_0000 + LowerChar(name[0]) as int * 0x1_0000 + LowerChar(name[1]) as int * 0x100 + LowerChar(name[|name| - 1]) as int
  }

  function CodeOfTag(tag: int): nat {
    if tag == 0x05_73_70_65 then 0x20
    else if tag == 0x05_65_6E_72 || tag == 0x06_72_65_6E then 0x0D
    else if tag == 0x03_74_61_62 then 0x09
    else if tag == 0x06_65_73_65 then 0x1B
    else if tag == 0x09_62_61_65 then 0x08
    else if tag == 0x06_69_6E_74 then 0x2D
    else if tag == 0x06_64_65_65 then 0x2E
    else if tag == 0x04_68_6F_65 then 0x24
    else if tag == 0x03_65_6E_64 then 0x23
    else if tag == 0x06_70_61_70 then 0x21
    else if tag == 0x08_70_61_6E then 0x22
    else if tag == 0x02_75_70_70 then 0x26
    else if tag == 0x04_64_6F_6E then 0x28
    else if tag == 0x04_6C_65_74 then 0x25
    else if tag == 0x05_72_69_74 then 0x27
    else if tag == 0x08_63_61_6B then 0x14
    else if tag == 0x07_6E_75_6B then 0x90
    else if tag == 0x0A_73_63_6B then 0x91
    else if tag == 0x05_70_61_65 then 0x13
    else if tag == 0x06_6C_73_74 then 0xA0
    else if tag == 0x06_72_73_74 then 0xA1
    else if tag == 0x05_6C_63_6C then 0xA2
    else if tag == 0x05_72_63_6C then 0xA3
    else if tag == 0x04_6C_61_74 then 0xA4
    else if tag == 0x04_72_61_74 then 0xA5
    else if tag == 0x05_67_72_65 || tag == 0x05_74_69_65 || tag == 0x08_62_61_6B || tag == 0x07_63_6F_65 then 0xC0
    else if tag == 0x05_6D_69_73 || tag == 0x06_68_79_6E || tag == 0x04_64_61_68 then 0xBD
    else if tag == 0x06_65_71_73 || tag == 0x05_65_71_6C || tag == 0x04_70_6C_73 then 0xBB
    else if tag == 0x08_6C_62_74 || tag == 0x0B_6C_65_74 then 0xDB
    else if tag == 0x08_72_62_74 || tag == 0x0C_72_69_74 then 0xDD
    else if tag == 0x09_62_61_68 then 0xDC
    else if tag == 0x09_73_65_6E then 0xBA
    else if tag == 0x0A_61_70_65 || tag == 0x05_71_75_65 then 0xDE
    else if tag == 0x05_63_6F_61 then 0xBC
    else if tag == 0x06_70_65_64 || tag == 0x03_64_6F_74 then 0xBE
    else if tag == 0x05_73_6C_68 then 0xBF
    else UNBOUND
  }

  lemma TagFolded(a: string, b: string)
    requires SameFolded(a, b) && |a| > 1
    ensures |b| == |a| && Tag(a) == Tag(b)
  {
    assert |Lower(a)| == |Lower(b)|;
    assert Lower(a)[0] == Lower(b)[0] && Lower(a)[1] == Lower(b)[1] && Lower(a)[|a| - 1] == Lower(b)[|a| - 1];
  }

  // Each row is where its tag says, and is no function key, mouse button or "UNBOUND".
  predicate RowOk(row: NamedKey) {
    && |row.name| > 1 && CodeOfTag(Tag(row.name)) == row.vk
    && LowerChar(row.name[0]) != 'f' && (LowerChar(row.name[0]) == 'm' ==> |row.name| != 6) && (LowerChar(row.name[0]) == 'u' ==> |row.name| != 7)
  }

  lemma EditingRows(i: nat)
    requires i < |EDITING_KEYS|
    ensures RowOk(EDITING_KEYS[i])
  {
    match i
    case 0 => case 1 => case 2 => case 3 => case 4 => case 5 => case 6 => case 7 => case 8 => case 9 =>
  }

  lemma NavigationRows(i: nat)
    requires i < |NAVIGATION_KEYS|
    ensures RowOk(NAVIGATION_KEYS[i])
  {
    match i
    case 0 => case 1 => case 2 => case 3 => case 4 => case 5 => case 6 => case 7 => case 8 => case 9 =>
  }

  lemma ModifierRows(i: nat)
    requires i < |MODIFIER_KEYS|
    ensures RowOk(MODIFIER_KEYS[i])
  {
    hide RowOk;
    if i < 6 { SidedRows(i); } else { GraveRows(i); }
  }

  lemma SidedRows(i: nat)
    requires i < 6
    ensures RowOk(MODIFIER_KEYS[i])
  {
    match i
    case 0 => case 1 => case 2 => case 3 => case 4 => case 5 =>
  }

  lemma GraveRows(i: nat)
    requires 6 <= i < |MODIFIER_KEYS|
    ensures RowOk(MODIFIER_KEYS[i])
  {
    match i
    case 6 => case 7 => case 8 => case 9 =>
  }

  lemma OperatorRows(i: nat)
    requires i < |OPERATOR_KEYS|
    ensures RowOk(OPERATOR_KEYS[i])
  {
    match i
    case 0 => case 1 => case 2 => case 3 => case 4 => case 5 =>
  }

  lemma BracketRows(i: nat)
    requires i < |BRACKET_KEYS|
    ensures RowOk(BRACKET_KEYS[i])
  {
    match i
    case 0 => case 1 => case 2 => case 3 => case 4 =>
  }

  lemma PunctuationRows(i: nat)
    requires i < |PUNCTUATION_KEYS|
    ensures RowOk(PUNCTUATION_KEYS[i])
  {
    match i
    case 0 => case 1 => case 2 => case 3 => case 4 => case 5 => case 6 =>
  }

  lemma TableOk(row: NamedKey)
    requires row in NAMED_KEYS
    ensures RowOk(row)
  {
    hide EDITING_KEYS, NAVIGATION_KEYS, MODIFIER_KEYS, OPERATOR_KEYS, BRACKET_KEYS, PUNCTUATION_KEYS, RowOk;
    if row in EDITING_KEYS { var i :| 0 <= i < |EDITING_KEYS| && EDITING_KEYS[i] == row; EditingRows(i); }
    else if row in NAVIGATION_KEYS { var i :| 0 <= i < |NAVIGATION_KEYS| && NAVIGATION_KEYS[i] == row; NavigationRows(i); }
    else if row in MODIFIER_KEYS { var i :| 0 <= i < |MODIFIER_KEYS| && MODIFIER_KEYS[i] == row; ModifierRows(i); }
    else if row in OPERATOR_KEYS { var i :| 0 <= i < |OPERATOR_KEYS| && OPERATOR_KEYS[i] == row; OperatorRows(i); }
    else if row in BRACKET_KEYS { var i :| 0 <= i < |BRACKET_KEYS| && BRACKET_KEYS[i] == row; BracketRows(i); }
    else { var i :| 0 <= i < |PUNCTUATION_KEYS| && PUNCTUATION_KEYS[i] == row; PunctuationRows(i); }
  }

  // ---- round trip ------------------------------------------------------------------------------------------

  lemma {:induction false} LookupByTag(rows: seq<NamedKey>, name: string)
    requires (forall row | row in rows :: RowOk(row)) && |name| > 1
    ensures (exists row | row in rows :: SameFolded(row.name, name)) ==> Lookup(rows, name) == CodeOfTag(Tag(name))
  {
    hide SameFolded, CodeOfTag, Tag;
    if rows != [] {
      assert RowOk(rows[0]);
      if SameFolded(rows[0].name, name) {
        TagFolded(rows[0].name, name);
      } else {
        LookupByTag(rows[1..], name);
      }
    }
  }

  lemma {:induction false} NameOfRow(rows: seq<NamedKey>, vk: nat)
    ensures NameOf(rows, vk) == "UNBOUND" || NamedKey(NameOf(rows, vk), vk) in rows
  {
    if rows != [] && rows[0].vk != vk { NameOfRow(rows[1..], vk); }
  }

  // A row's name is none of the special spellings, so KeyCode looks it up.
  lemma RowNameIsLookedUp(row: NamedKey)
    requires RowOk(row)
    ensures KeyCode(row.name) == Lookup(NAMED_KEYS, row.name)
  {
    hide CodeOfTag, Tag, Lookup, LeadingNumber, NAMED_KEYS;
    var name := row.name;
    FoldedShape(name, "UNBOUND");
    if |name| == 6 { FoldedShape(name[..5], "MOUSE"); }
  }

  lemma FoldedShape(a: string, b: string)
    requires a != "" && b != ""
    ensures SameFolded(a, b) ==> |a| == |b| && LowerChar(a[0]) == LowerChar(b[0])
  {
    assert |Lower(a)| == |a| && |Lower(b)| == |b|;
    assert Lower(a)[0] == LowerChar(a[0]) && Lower(b)[0] == LowerChar(b[0]);
  }

  // The codes of the mouse buttons, function keys, digits and letters, and those of the table.
  predicate HasName(vk: nat) {
    || vk in {1, 2, 4, 5, 6} || 0x70 <= vk <= 0x87 || 0x30 <= vk <= 0x39 || 0x41 <= vk <= 0x5A
    || exists row | row in NAMED_KEYS :: row.vk == vk
  }

  lemma {:induction false} NameOfExactly(rows: seq<NamedKey>, vk: nat)
    requires forall row | row in rows :: RowOk(row)
    ensures NameOf(rows, vk) != "UNBOUND" <==> exists row | row in rows :: row.vk == vk
  {
    if rows != [] {
      assert RowOk(rows[0]) && "UNBOUND"[0] == 'U';
      NameOfExactly(rows[1..], vk);
    }
  }

  lemma UnboundCode()
    ensures KeyCode("UNBOUND") == UNBOUND
  {
    assert "UNBOUND"[0] == 'U';
  }

  lemma MouseRoundTrip(i: nat)
    requires i < 5
    ensures KeyCode("MOUSE" + Decimal(i + 1)) == MouseCode(i)
  {
    var name := "MOUSE" + Decimal(i + 1);
    assert name[..5] == "MOUSE" && name[5] == ((i + 1) + '0' as int) as char;
  }

  lemma FunctionKeyRoundTrip(n: nat)
    requires 1 <= n <= 24
    ensures KeyCode("F" + Decimal(n)) == 0x70 + n - 1
  {
    var name := "F" + Decimal(n);
    assert name[1..] == Decimal(n) && name[0] == 'F';
    assert |Lower(name)| == |name| < 6;
    if n < 10 {
      assert Decimal(n)[1..] == "" && LeadingNumber(Decimal(n), 0) == LeadingNumber(Decimal(n)[1..], n);
    } else {
      assert Decimal(n)[1..][1..] == "" && Decimal(n)[1..] == [Decimal(n)[1]];
      assert LeadingNumber(Decimal(n), 0) == LeadingNumber(Decimal(n)[1..], n / 10) == LeadingNumber(Decimal(n)[1..][1..], n);
    }
  }

  lemma CharacterRoundTrip(vk: nat)
    requires 0x30 <= vk <= 0x39 || 0x41 <= vk <= 0x5A
    ensures KeyCode([vk as char]) == vk
  {
    assert |Lower([vk as char])| == 1 && |Lower("UNBOUND")| == 7;
  }

  // Naming a code and reading the name gives the code back exactly for the codes with a name and the unbound
  // code itself.
  lemma KeyNameRoundTrip(vk: nat)
    ensures KeyCode(KeyName(vk)) == vk <==> vk == UNBOUND || HasName(vk)
  {
    hide KeyCode, NAMED_KEYS, CodeOfTag, Tag, RowOk;
    UnboundCode();
    if vk == 1 || vk == 2 || vk == 4 || vk == 5 || vk == 6 {
      MouseRoundTrip(if vk < 3 then vk - 1 else vk - 2);
    } else if 0x70 <= vk <= 0x87 {
      FunctionKeyRoundTrip(vk - 0x70 + 1);
    } else if 0x30 <= vk <= 0x39 || 0x41 <= vk <= 0x5A {
      CharacterRoundTrip(vk);
    } else {
      forall r | r in NAMED_KEYS ensures RowOk(r) { TableOk(r); }
      NameOfExactly(NAMED_KEYS, vk);
      NameOfRow(NAMED_KEYS, vk);
      var name := NameOf(NAMED_KEYS, vk);
      if name != "UNBOUND" { TableRoundTrip(NamedKey(name, vk)); }
    }
  }

  lemma TableRoundTrip(row: NamedKey)
    requires row in NAMED_KEYS && forall r | r in NAMED_KEYS :: RowOk(r)
    ensures KeyCode(row.name) == row.vk
  {
    hide KeyCode, NAMED_KEYS, CodeOfTag, Tag;
    RowNameIsLookedUp(row);
    assert SameFolded(row.name, row.name);
    LookupByTag(NAMED_KEYS, row.name);
  }
}
