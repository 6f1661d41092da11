/**
 * The label sheet of a generated PDF: every value is passed through a fixed
 * table of text replacements (mis-decoded Vietnamese and Vietnamese with
 * diacritics both become plain ASCII), and the table of the sheet is a header
 * row and nine fixed rows. Rendering the PDF is not part of this model.
 */
module GeneratePdf {
  import Text

  /**
   * The replacement dict in iteration order. The literal lists `Áo` twice; a
   * dict keeps the first position and the last value, so 17 entries remain.
   */
  const Fixes: seq<(string, string)> := [
    ("S\U{e1}\U{bb}", "So"),
    ("th\U{e1}\U{bb}\U{a9}", "thu"),
    ("t\U{e1}\U{bb}\U{b1}", "tu"),
    ("Lo\U{e1}\U{ba}\U{a1}i", "Loai"),
    ("\U{c3}\U{a1}o", "ao"),
    ("M\U{c3} u", "Mau"),
    ("s\U{e1}\U{ba}\U{af}c", "sac"),
    ("K\U{c3}\U{ad}ch", "Kich"),
    ("th\U{c6}\U{b0}\U{e1}\U{bb}\U{203a}c", "thuoc"),
    ("Lng", "Luong"),
    ("Loi", "Loai"),
    ("S\U{25a0}", "So"),
    ("\U{c1}o", "Ao"),
    ("S\U{1ed1}", "So"),
    ("L\U{1b0}\U{1ee3}ng", "Luong"),
    ("Lo\U{1ea1}i", "Loai"),
    ("M\U{e0}u", "Mau")
  ]

  /** The rules applied one after another, each replacing every occurrence in the output of the previous ones. */
  function ApplyFixes(rules: seq<(string, string)>, text: string): string
  {
    if rules == [] then text
    else
      var (encoded, decoded) := rules[|rules| - 1];
      Text.ReplaceAll(ApplyFixes(rules[..|rules| - 1], text), encoded, decoded)
  }

  /** `encode_vietnamese_text` on a string: empty stays empty, anything else goes through the table. */
  function Encoded(text: string): string
  {
    if text == "" then "" else ApplyFixes(Fixes, text)
  }

  /** `encode_vietnamese_text`: the loop over the table. */
  method EncodeVietnameseText(text: string) returns (result: string)
    ensures result == Encoded(text)
    ensures text == "" ==> result == ""
  {
    if text == "" {
      return "";
    }
    result := text;
    for i := 0 to |Fixes|
      invariant result == ApplyFixes(Fixes[..i], text)
    {
      assert Fixes[..i + 1][..i] == Fixes[..i];
      var (encoded, decoded) := Fixes[i];
      result := Text.ReplaceAll(result, encoded, decoded);
    }
    assert Fixes[..|Fixes|] == Fixes;
  }

  /** A text holding none of the keys is left alone by every rule. */
  lemma {:induction false} ApplyFixesAbsent(rules: seq<(string, string)>, text: string)
    requires forall k :: 0 <= k < |rules| ==> rules[k].0 != "" && !Text.Contains(text, rules[k].0)
    ensures ApplyFixes(rules, text) == text
  {
    if rules != [] {
      var init := rules[..|rules| - 1];
      assert forall k :: 0 <= k < |init| ==> init[k] == rules[k];
      ApplyFixesAbsent(init, text);
      Text.ReplaceAbsent(text, rules[|rules| - 1].0, rules[|rules| - 1].1);
    }
  }

  /** Text containing none of the table's keys comes back unchanged. */
  lemma EncodedUnchanged(text: string)
    requires forall k :: 0 <= k < |Fixes| ==> !Text.Contains(text, Fixes[k].0)
    ensures Encoded(text) == text
  {
    assert forall k :: 0 <= k < |Fixes| ==> Fixes[k].0 != "";
    ApplyFixesAbsent(Fixes, text);
  }

  /** Later rules see the output of earlier ones: the table applied in two parts is the table applied at once. */
  lemma {:induction false} ApplyFixesSplit(rules: seq<(string, string)>, more: seq<(string, string)>, text: string)
    ensures ApplyFixes(rules + more, text) == ApplyFixes(more, ApplyFixes(rules, text))
  {
    if more == [] {
      assert rules + more == rules;
    } else {
      assert (rules + more)[..|rules + more| - 1] == rules + more[..|more| - 1];
      ApplyFixesSplit(rules, more[..|more| - 1], text);
    }
  }

  /** The table has 17 distinct keys, and the key listed twice sits at its first position. */
  lemma FixesKeys()
    ensures |Fixes| == 17
    ensures forall i, j :: 0 <= i < j < |Fixes| ==> Fixes[i].0 != Fixes[j].0
    ensures Fixes[12] == ("\U{c1}o", "Ao")
  {
  }

  // ---------------------------------------------------------------- table_data

  const Labels: seq<string> := ["Lo", "Ngay", "STT", "So Luong Ao", "Ma tracking", "Loai Ao", "Loai Pet", "Mau", "Size"]
  const FieldKeys: seq<string> := ["lo", "ngay", "stt", "soLuongAo", "maTracking", "loaiAo", "loaiPet", "mau", "size"]

  function GetOr(m: map<string, string>, k: string): string
  {
    if k in m then m[k] else ""
  }

  /** The sheet's table: the header, then one row per field with its encoded value, a missing field giving `''`. */
  function TableData(order: map<string, string>): (rows: seq<(string, string)>)
    ensures |rows| == 10 && rows[0] == ("Field", "Value")
    ensures forall k :: 0 <= k < 9 ==> rows[k + 1].0 == Labels[k]
    ensures forall k :: 0 <= k < 9 ==> rows[k + 1].1 == Encoded(GetOr(order, FieldKeys[k]))
    ensures forall k :: 0 <= k < 9 ==> FieldKeys[k] !in order ==> rows[k + 1].1 == ""
  {
    [("Field", "Value")] + seq(9, k requires 0 <= k < 9 => (Labels[k], Encoded(GetOr(order, FieldKeys[k]))))
  }
}
