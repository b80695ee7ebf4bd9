/**
 * `generateHTML`: the signature as a table whose right-hand cell is a column of rows.
 *
 * The composer is written here twice. `GenerateHTML` is the template exactly as the
 * session builds it. `Lines` is the list of rows the template shows, each of a kind
 * (`Line`) that knows its place (`Slot`) in the template, and `Render` lays such a
 * list out. `RenderMatchesTemplate` proves the two agree on every record, so what is
 * proved about the rows (which appear, in which order, with what text) is a fact about
 * the emitted markup.
 */
module SignatureHtml {
  import opened Optional
  import opened JsString
  import opened SignatureData

  // ---------------------------------------------------------------------------
  // The fixed text of the template
  // ---------------------------------------------------------------------------

  /** From the leading newline to the opening of the name span; the logo is a fixed
      90px image. */
  const TableHead: string := "\n    <table cellpadding=\"0\" " + "cellspacing=\"0\" " +
      "style=\"border-collapse: " + "collapse; min-width: 650px;\">\n" +
      "      <tr style=\"vertical-alig" + "n: top;\">\n        <td " +
      "style=\"padding-right: 24px; " + "vertical-align: top;\">\n" + "          <img " +
      "src=\"https://i.postimg.cc/3RMd" + "xN8Z/disc.png\" alt=\"Logo UCN\" " +
      "style=\"width: 90px; " + "height: 90px; " + "object-fit: contain; " + "display: block; " +
      "vertical-align: top;\">\n" + "        </td>\n        <td " +
      "style=\"vertical-align: top; " + "min-width: 500px;\">\n" + "          <div>\n" +
      "            <div " + "style=\"margin-bottom: 4px;\">\n" + "              <span " +
      "style=\"font-size: 18px; " + "font-weight: bold; " + "color: #000000;\">"

  const NameClose: string := "</span>\n            </div>"

  /** The line break and indentation between two slots of the template. */
  const RowBreak: string := "\n            "

  const DepartmentHtml: string := "<div style=\"font-size: 14px; " + "color: #6b7280; " +
      "line-height: 1.25; " + "margin-bottom: 4px; " + "white-space: nowrap;\">" +
      "Departamento de Ingeniería de " + "Sistemas y Computación</div>"
  const UniversityHtml: string := "<div style=\"font-size: 14px; " + "color: #6b7280; " +
      "line-height: 1.25; " + "margin-bottom: 4px;\">" + "Universidad Católica del " +
      "Norte</div>"
  const AddressHtml: string := "<div style=\"font-size: 14px; " + "color: #6b7280; " +
      "line-height: 1.25; " + "margin-bottom: 4px;\">Av. " + "Angamos 0610, " +
      "Antofagasta</div>"
  const RuleHtml: string := "<hr style=\"margin-top: 16px; " + "border: none; " +
      "border-top: 1px solid " + "#1e3a8a;\">"

  const TableTail: string := "\n          </div>\n" + "        </td>\n      </tr>\n" +
      "    </table>\n    "

  // ---------------------------------------------------------------------------
  // The pieces with a hole
  // ---------------------------------------------------------------------------

  function NameHtml(name: string): string {
    name + NameClose
  }

  function PositionHtml(pos: string): string {
    "<div style=\"font-size: 16px; " + "color: #1f2937; " + "line-height: 1.25; " +
        "margin-bottom: 4px;\">" + pos + "</div>"
  }

  function PhoneHtml(phone: string): string {
    "<div style=\"font-size: 14px; " + "color: #1f2937; " + "margin-bottom: 4px;\">" +
        phone + "</div>"
  }

  function EmailHtml(email: string): string {
    "<div style=\"font-size: 14px; " + "margin-bottom: 4px;\">" + "<a href=\"mailto:" + email +
    "\" style=\"color: #1d4ed8; " + "text-decoration: underline;\">" + email + "</a></div>"
  }

  function LinkHtml(href: string, caption: string): string {
    "<div style=\"font-size: 14px; " + "margin-bottom: 4px;\"><a href=\"" + href +
    "\" style=\"color: #1d4ed8; " + "text-decoration: underline;\">" + caption + "</a></div>"
  }

  /** `socialIcons[key]`: a key without an icon interpolates as `undefined`. */
  function SocialIcon(key: string): string {
    if key == "linkedin" then "https://cdn.jsdelivr.net/gh/si" +
        "mple-icons/simple-icons/icons/" + "linkedin.svg"
    else if key == "twitter" then "https://cdn.jsdelivr.net/gh/si" +
        "mple-icons/simple-icons/icons/" + "x.svg"
    else if key == "facebook" then "https://cdn.jsdelivr.net/gh/si" +
        "mple-icons/simple-icons/icons/" + "facebook.svg"
    else if key == "instagram" then "https://cdn.jsdelivr.net/gh/si" +
        "mple-icons/simple-icons/icons/" + "instagram.svg"
    else "undefined"
  }

  function SocialAnchor(key: string, url: string): string {
    "<a href='" + url + "' target='_blank' " + "rel='noopener noreferrer' " +
        "style='display:inline-block;'>" + "\n                  <img src='" +
    SocialIcon(key) + "' alt='" + key +
    "' " + "style='width:32px;height:32px;" + "border-radius:50%;background:#" +
        "818cf8;padding:4px;display:inl" + "ine-block;' />\n" + "                </a>"
  }

  const SocialOpen: string := "<div style='margin-top:16px;di" + "splay:flex;gap:12px;'>"
  const SocialClose: string := "\n        </div>"

  /** `Object.entries(social).map(...).join('')`: an anchor for a truthy url, nothing
      for an empty or missing one. */
  function SocialAnchors(entries: seq<SocialEntry>): string {
    if entries == [] then ""
    else
      (if TruthyOpt(entries[0].url) then SocialAnchor(entries[0].key, entries[0].url.value) else "") +
      SocialAnchors(entries[1..])
  }

  function SocialHtml(entries: seq<SocialEntry>): string {
    SocialOpen + SocialAnchors(entries) + SocialClose
  }

  /** `positions.filter(pos => pos.trim()).map(...).join('')`, given the filtered list. */
  function PositionDivs(filled: seq<string>): string {
    if filled == [] then "" else PositionHtml(filled[0]) + PositionDivs(filled[1..])
  }

  /** `additionalLinkText || additionalLink`. */
  function LinkLabel(link: string, text: Option<string>): (caption: string)
    ensures TruthyOpt(text) ==> caption == text.value
    ensures !TruthyOpt(text) ==> caption == link
  {
    if TruthyOpt(text) then text.value else link
  }

  // ---------------------------------------------------------------------------
  // The template
  // ---------------------------------------------------------------------------

  /** What the `k`-th of the ten interpolations of the right-hand column holds, top to
      bottom: the name span, the positions, the three fixed lines, then the phone, the
      email, the additional link and the social container when present, and the rule. */
  function SlotText(d: Signature, k: nat): string
    requires k <= 9
  {
    if k == 0 then NameHtml(d.fullName)
    else if k == 1 then PositionDivs(FilledPositions(d.positions))
    else if k == 2 then DepartmentHtml
    else if k == 3 then UniversityHtml
    else if k == 4 then AddressHtml
    else if k == 5 then (if d.phone != "" then PhoneHtml(d.phone) else "")
    else if k == 6 then (if d.email != "" then EmailHtml(d.email) else "")
    else if k == 7 then
      (if TruthyOpt(d.additionalLink)
       then LinkHtml(d.additionalLink.value, LinkLabel(d.additionalLink.value, d.additionalLinkText))
       else "")
    else if k == 8 then (if d.social.Some? then SocialHtml(d.social.value) else "")
    else RuleHtml
  }

  /** The ten interpolations, top to bottom. */
  function SlotTexts(d: Signature): (t: seq<string>)
    ensures |t| == 10
  {
    seq(10, k requires 0 <= k < 10 => SlotText(d, k))
  }

  /** A column of template lines: one interpolation per line, a `RowBreak` between two. */
  function JoinRows(rows: seq<string>): string {
    if rows == [] then ""
    else if |rows| == 1 then rows[0]
    else rows[0] + RowBreak + JoinRows(rows[1..])
  }

  /** `generateHTML()`. */
  function GenerateHTML(d: Signature): string {
    TableHead + JoinRows(SlotTexts(d)) + TableTail
  }

  // ---------------------------------------------------------------------------
  // The rows
  // ---------------------------------------------------------------------------

  datatype Line =
    | NameLine(name: string)
    | PositionLine(text: string)
    | DepartmentLine
    | UniversityLine
    | AddressLine
    | PhoneLine(phone: string)
    | EmailLine(address: string)
    | LinkLine(href: string, caption: string)
    | SocialLine(entries: seq<SocialEntry>)
    | RuleLine

  /** The interpolation slot of the template a row belongs to, top to bottom. */
  function Slot(l: Line): (s: nat)
    ensures s <= 9
  {
    match l
    case NameLine(_) => 0
    case PositionLine(_) => 1
    case DepartmentLine => 2
    case UniversityLine => 3
    case AddressLine => 4
    case PhoneLine(_) => 5
    case EmailLine(_) => 6
    case LinkLine(_, _) => 7
    case SocialLine(_) => 8
    case RuleLine => 9
  }

  function LineHtml(l: Line): string {
    match l
    case NameLine(name) => NameHtml(name)
    case PositionLine(text) => PositionHtml(text)
    case DepartmentLine => DepartmentHtml
    case UniversityLine => UniversityHtml
    case AddressLine => AddressHtml
    case PhoneLine(phone) => PhoneHtml(phone)
    case EmailLine(address) => EmailHtml(address)
    case LinkLine(href, caption) => LinkHtml(href, caption)
    case SocialLine(entries) => SocialHtml(entries)
    case RuleLine => RuleHtml
  }

  function PositionLines(filled: seq<string>): (r: seq<Line>)
    ensures |r| == |filled|
    ensures forall i :: 0 <= i < |r| ==> r[i] == PositionLine(filled[i])
  {
    if filled == [] then [] else [PositionLine(filled[0])] + PositionLines(filled[1..])
  }

  /** The rows of slot `k` for `d`: the name, the filled positions, one fixed line
      each, an optional row each for phone, email, link and social, and the rule. */
  function SlotRows(d: Signature, k: nat): (r: seq<Line>)
    requires k <= 9
    ensures forall i :: 0 <= i < |r| ==> Slot(r[i]) == k
  {
    if k == 0 then [NameLine(d.fullName)]
    else if k == 1 then PositionLines(FilledPositions(d.positions))
    else if k == 2 then [DepartmentLine]
    else if k == 3 then [UniversityLine]
    else if k == 4 then [AddressLine]
    else if k == 5 then (if d.phone != "" then [PhoneLine(d.phone)] else [])
    else if k == 6 then (if d.email != "" then [EmailLine(d.email)] else [])
    else if k == 7 then
      (if TruthyOpt(d.additionalLink)
       then [LinkLine(d.additionalLink.value, LinkLabel(d.additionalLink.value, d.additionalLinkText))]
       else [])
    else if k == 8 then (if d.social.Some? then [SocialLine(d.social.value)] else [])
    else [RuleLine]
  }

  /** The rows of slots `k` to 9, top to bottom. */
  function RowsFrom(d: Signature, k: nat): (r: seq<Line>)
    requires k <= 9
    ensures forall i :: 0 <= i < |r| ==> k <= Slot(r[i])
    decreases 9 - k
  {
    if k == 9 then SlotRows(d, 9) else SlotRows(d, k) + RowsFrom(d, k + 1)
  }

  /** The rows `generateHTML` shows for `d`, top to bottom. */
  function Lines(d: Signature): seq<Line> {
    RowsFrom(d, 0)
  }

  // ---------------------------------------------------------------------------
  // Laying rows out
  // ---------------------------------------------------------------------------

  /** Lays out `lines` from slot `s` on: rows of the current slot are written one after
      the other, and moving to the next slot writes a `RowBreak`. */
  function RenderFrom(lines: seq<Line>, s: nat): string
    requires s <= 9
    decreases |lines|, 9 - s
  {
    if lines != [] && Slot(lines[0]) == s then LineHtml(lines[0]) + RenderFrom(lines[1..], s)
    else if s < 9 then RowBreak + RenderFrom(lines, s + 1)
    else ""
  }

  function Render(lines: seq<Line>): string {
    TableHead + RenderFrom(lines, 0) + TableTail
  }

  /** The markup of some rows, written one after the other. */
  function LinesHtml(lines: seq<Line>): string {
    if lines == [] then "" else LineHtml(lines[0]) + LinesHtml(lines[1..])
  }

  predicate AllInSlot(lines: seq<Line>, s: nat) {
    forall i :: 0 <= i < |lines| ==> Slot(lines[i]) == s
  }

  /** A row of the current slot is written, and then the rest follows. */
  lemma RenderCons(l: Line, rest: seq<Line>, s: nat)
    requires s <= 9 && Slot(l) == s
    ensures RenderFrom([l] + rest, s) == LineHtml(l) + RenderFrom(rest, s)
  {
    assert ([l] + rest)[1..] == rest;
  }

  /** Rows of the current slot are written in order, and then the rest follows. */
  lemma {:induction false} RenderSameSlot(a: seq<Line>, b: seq<Line>, s: nat)
    requires s <= 9 && AllInSlot(a, s)
    ensures RenderFrom(a + b, s) == LinesHtml(a) + RenderFrom(b, s)
  {
    if a == [] {
      assert a + b == b;
    } else {
      assert a + b == [a[0]] + (a[1..] + b);
      RenderCons(a[0], a[1..] + b, s);
      RenderSameSlot(a[1..], b, s);
    }
  }

  /** A slot is closed by one `RowBreak` once the next row belongs further down. */
  lemma RenderStep(a: seq<Line>, b: seq<Line>, s: nat)
    requires s < 9 && AllInSlot(a, s)
    requires b != [] ==> Slot(b[0]) != s
    ensures RenderFrom(a + b, s) == LinesHtml(a) + RowBreak + RenderFrom(b, s + 1)
  {
    RenderSameSlot(a, b, s);
    assert RenderFrom(b, s) == RowBreak + RenderFrom(b, s + 1);
  }

  lemma {:induction false} PositionLinesHtml(filled: seq<string>)
    ensures LinesHtml(PositionLines(filled)) == PositionDivs(filled)
    ensures AllInSlot(PositionLines(filled), 1)
  {
    if filled != [] {
      assert PositionLines(filled)[1..] == PositionLines(filled[1..]);
      PositionLinesHtml(filled[1..]);
    }
  }

  /** Laying out the rows of `d` gives exactly the template's markup. */
  lemma RenderMatchesTemplate(d: Signature)
    ensures Render(Lines(d)) == GenerateHTML(d)
  {
    var t := SlotTexts(d);
    SlotTextsMatch(d);
    RenderRowsFrom(d, t, 0);
    assert t[0..] == t;
  }

  lemma SlotTextsMatch(d: Signature)
    ensures forall k :: 0 <= k <= 9 ==> LinesHtml(SlotRows(d, k)) == SlotTexts(d)[k]
  {
    forall k | 0 <= k <= 9
      ensures LinesHtml(SlotRows(d, k)) == SlotTexts(d)[k]
    {
      SlotRowsHtml(d, k);
    }
  }

  /** Rows whose slots are written as `texts` lay out, from slot `k` on, as the lines
      `texts[k..]` of the column. */
  lemma {:induction false} RenderRowsFrom(d: Signature, texts: seq<string>, k: nat)
    requires k <= 9 && |texts| == 10
    requires forall j :: 0 <= j <= 9 ==> LinesHtml(SlotRows(d, j)) == texts[j]
    ensures RenderFrom(RowsFrom(d, k), k) == JoinRows(texts[k..])
    decreases 9 - k
  {
    if k == 9 {
      RenderSameSlot(SlotRows(d, 9), [], 9);
      assert SlotRows(d, 9) + [] == SlotRows(d, 9);
    } else {
      RenderRowsFrom(d, texts, k + 1);
      RenderStep(SlotRows(d, k), RowsFrom(d, k + 1), k);
      assert texts[k..][1..] == texts[k + 1..];
    }
  }

  /** Each slot's rows are written as that slot's interpolation. */
  lemma SlotRowsHtml(d: Signature, k: nat)
    requires k <= 9
    ensures LinesHtml(SlotRows(d, k)) == SlotText(d, k)
  {
    if k == 1 {
      PositionLinesHtml(FilledPositions(d.positions));
    } else if k == 5 {
      PhoneRowHtml(d);
    } else if k == 6 {
      EmailRowHtml(d);
    } else if k == 7 {
      LinkRowHtml(d);
    } else if k == 8 {
      SocialRowHtml(d);
    } else {
      FixedRowHtml(d, k);
    }
  }

  lemma PhoneRowHtml(d: Signature)
    ensures LinesHtml(SlotRows(d, 5)) == SlotText(d, 5)
  {
  }

  lemma EmailRowHtml(d: Signature)
    ensures LinesHtml(SlotRows(d, 6)) == SlotText(d, 6)
  {
  }

  lemma LinkRowHtml(d: Signature)
    ensures LinesHtml(SlotRows(d, 7)) == SlotText(d, 7)
  {
  }

  lemma SocialRowHtml(d: Signature)
    ensures LinesHtml(SlotRows(d, 8)) == SlotText(d, 8)
  {
  }

  lemma FixedRowHtml(d: Signature, k: nat)
    requires k == 0 || k == 2 || k == 3 || k == 4 || k == 9
    ensures LinesHtml(SlotRows(d, k)) == SlotText(d, k)
  {
    assert SlotRows(d, k)[1..] == [];
  }

  // ---------------------------------------------------------------------------
  // Which rows appear, and in which order
  // ---------------------------------------------------------------------------

  lemma {:induction false} RowsFromMembers(d: Signature, k: nat, l: Line)
    requires k <= 9
    ensures l in RowsFrom(d, k) <==> k <= Slot(l) && l in SlotRows(d, Slot(l))
    decreases 9 - k
  {
    if k < 9 {
      RowsFromMembers(d, k + 1, l);
    }
  }

  /** A row is shown exactly when its slot has it. */
  lemma LineMembers(d: Signature, l: Line)
    ensures l in Lines(d) <==> l in SlotRows(d, Slot(l))
  {
    RowsFromMembers(d, 0, l);
  }

  /** Always shown: the name span (also for an empty name) and the closing rule. */
  lemma FixedRows(d: Signature)
    ensures NameLine(d.fullName) in Lines(d) && RuleLine in Lines(d)
  {
    LineMembers(d, NameLine(d.fullName));
    LineMembers(d, RuleLine);
  }

  /** Always shown: the three institutional lines. */
  lemma InstitutionRows(d: Signature)
    ensures DepartmentLine in Lines(d) && UniversityLine in Lines(d) && AddressLine in Lines(d)
  {
    LineMembers(d, DepartmentLine);
    LineMembers(d, UniversityLine);
    LineMembers(d, AddressLine);
  }

  /** The name comes first and the rule last. */
  lemma FirstAndLastRows(d: Signature)
    ensures Lines(d)[0] == NameLine(d.fullName) && Lines(d)[|Lines(d)| - 1] == RuleLine
  {
    assert Lines(d) == [NameLine(d.fullName)] + RowsFrom(d, 1);
    LastRow(d, 0);
  }

  lemma {:induction false} LastRow(d: Signature, k: nat)
    requires k <= 9
    ensures |RowsFrom(d, k)| > 0 && RowsFrom(d, k)[|RowsFrom(d, k)| - 1] == RuleLine
    decreases 9 - k
  {
    if k < 9 {
      LastRow(d, k + 1);
    }
  }

  /** A phone row exactly when the phone is not empty, and it shows that phone. */
  lemma PhoneRow(d: Signature, phone: string)
    ensures PhoneLine(phone) in Lines(d) <==> d.phone != "" && phone == d.phone
  {
    LineMembers(d, PhoneLine(phone));
  }

  /** A `mailto:` row exactly when the email is not empty, and it shows that email. */
  lemma EmailRow(d: Signature, address: string)
    ensures EmailLine(address) in Lines(d) <==> d.email != "" && address == d.email
  {
    LineMembers(d, EmailLine(address));
  }

  /** A link row exactly when the additional link is truthy; its caption is the link
      text when that is not empty, else the link itself. */
  lemma LinkRow(d: Signature, href: string, caption: string)
    ensures LinkLine(href, caption) in Lines(d) <==>
      TruthyOpt(d.additionalLink) && href == d.additionalLink.value &&
      caption == (if TruthyOpt(d.additionalLinkText) then d.additionalLinkText.value else href)
  {
    LineMembers(d, LinkLine(href, caption));
  }

  /** The social container exactly when `social` is defined, even when no entry of it has
      a url. */
  lemma SocialRow(d: Signature, entries: seq<SocialEntry>)
    ensures SocialLine(entries) in Lines(d) <==> d.social == Some(entries)
  {
    LineMembers(d, SocialLine(entries));
  }

  /** A position row for each position that is not blank after trimming, and for no
      other text. */
  lemma PositionRow(d: Signature, text: string)
    ensures PositionLine(text) in Lines(d) <==> text in d.positions && !IsBlank(text)
  {
    LineMembers(d, PositionLine(text));
    PositionLineMembers(FilledPositions(d.positions), text);
  }

  lemma PositionLineMembers(filled: seq<string>, text: string)
    ensures PositionLine(text) in PositionLines(filled) <==> text in filled
  {
    if PositionLine(text) in PositionLines(filled) {
      var i :| 0 <= i < |filled| && PositionLines(filled)[i] == PositionLine(text);
      assert filled[i] == text;
    }
    if text in filled {
      var i :| 0 <= i < |filled| && filled[i] == text;
      assert PositionLines(filled)[i] == PositionLine(text);
    }
  }

  /** The text of a position row; nothing for any other row. */
  function PositionText(l: Line): seq<string> {
    if l.PositionLine? then [l.text] else []
  }

  /** The texts of the position rows, in order. */
  function PositionTexts(lines: seq<Line>): (r: seq<string>)
    ensures |r| <= |lines|
  {
    if lines == [] then [] else PositionText(lines[0]) + PositionTexts(lines[1..])
  }

  lemma {:induction false} PositionTextsConcat(a: seq<Line>, b: seq<Line>)
    ensures PositionTexts(a + b) == PositionTexts(a) + PositionTexts(b)
  {
    if a == [] {
      assert a + b == b;
    } else {
      assert (a + b)[1..] == a[1..] + b;
      PositionTextsConcat(a[1..], b);
    }
  }

  lemma {:induction false} PositionTextsOfLines(filled: seq<string>)
    ensures PositionTexts(PositionLines(filled)) == filled
  {
    if filled != [] {
      assert PositionLines(filled)[1..] == PositionLines(filled[1..]);
      PositionTextsOfLines(filled[1..]);
    }
  }

  lemma {:induction false} NoPositionTexts(lines: seq<Line>)
    requires forall i :: 0 <= i < |lines| ==> !lines[i].PositionLine?
    ensures PositionTexts(lines) == []
  {
    if lines != [] {
      NoPositionTexts(lines[1..]);
    }
  }

  lemma {:induction false} PositionTextsFrom(d: Signature, k: nat)
    requires 2 <= k <= 9
    ensures PositionTexts(RowsFrom(d, k)) == []
  {
    NoPositionTexts(RowsFrom(d, k));
  }

  /** The position rows show exactly the positions that are not blank after trimming,
      in their order in the list; blank and whitespace-only positions show nothing. */
  lemma PositionRowsInOrder(d: Signature)
    ensures PositionTexts(Lines(d)) == FilledPositions(d.positions)
  {
    var filled := FilledPositions(d.positions);
    assert Lines(d) == [NameLine(d.fullName)] + (PositionLines(filled) + RowsFrom(d, 2));
    PositionTextsConcat([NameLine(d.fullName)], PositionLines(filled) + RowsFrom(d, 2));
    PositionTextsConcat(PositionLines(filled), RowsFrom(d, 2));
    PositionTextsOfLines(filled);
    PositionTextsFrom(d, 2);
    assert PositionTexts([NameLine(d.fullName)]) == [];
  }

  lemma {:induction false} RowsFromSorted(d: Signature, k: nat)
    requires k <= 9
    ensures forall i, j :: 0 <= i < j < |RowsFrom(d, k)| ==> Slot(RowsFrom(d, k)[i]) <= Slot(RowsFrom(d, k)[j])
    decreases 9 - k
  {
    if k < 9 {
      RowsFromSorted(d, k + 1);
      var a, b := SlotRows(d, k), RowsFrom(d, k + 1);
      assert RowsFrom(d, k) == a + b;
      forall i, j | 0 <= i < j < |a + b|
        ensures Slot((a + b)[i]) <= Slot((a + b)[j])
      {
        if j < |a| {
          assert (a + b)[i] == a[i] && (a + b)[j] == a[j];
        } else if i >= |a| {
          assert (a + b)[i] == b[i - |a|] && (a + b)[j] == b[j - |a|];
        } else {
          assert (a + b)[i] == a[i] && (a + b)[j] == b[j - |a|];
        }
      }
    }
  }

  /** The rows come in template order: name, positions, the three fixed lines, phone,
      email, link, social, rule. */
  lemma RowsInTemplateOrder(d: Signature)
    ensures forall i, j :: 0 <= i < j < |Lines(d)| ==> Slot(Lines(d)[i]) <= Slot(Lines(d)[j])
  {
    RowsFromSorted(d, 0);
  }

  // ---------------------------------------------------------------------------
  // The social container
  // ---------------------------------------------------------------------------

  /** The entries whose url is truthy, in `Object.entries` order. */
  function LinkedEntries(entries: seq<SocialEntry>): (r: seq<SocialEntry>)
    ensures forall e :: e in r <==> e in entries && TruthyOpt(e.url)
  {
    if entries == [] then []
    else (if TruthyOpt(entries[0].url) then [entries[0]] else []) + LinkedEntries(entries[1..])
  }

  /** The filter keeps order and repeats: filtering a concatenation concatenates the
      filtered parts. */
  lemma {:induction false} LinkedEntriesConcat(a: seq<SocialEntry>, b: seq<SocialEntry>)
    ensures LinkedEntries(a + b) == LinkedEntries(a) + LinkedEntries(b)
  {
    if a == [] {
      assert a + b == b;
    } else {
      assert (a + b)[1..] == a[1..] + b;
      LinkedEntriesConcat(a[1..], b);
    }
  }

  /** One anchor per entry, each to its url with the icon and name of its key. */
  function AnchorsOf(linked: seq<SocialEntry>): string
    requires forall i :: 0 <= i < |linked| ==> linked[i].url.Some?
  {
    if linked == [] then "" else SocialAnchor(linked[0].key, linked[0].url.value) + AnchorsOf(linked[1..])
  }

  /** The container holds exactly one anchor per entry with a truthy url, in entry
      order; an entry with an empty or missing url leaves no trace. */
  lemma {:induction false} SocialAnchorsPerLinkedEntry(entries: seq<SocialEntry>)
    ensures forall i :: 0 <= i < |LinkedEntries(entries)| ==> LinkedEntries(entries)[i].url.Some?
    ensures SocialAnchors(entries) == AnchorsOf(LinkedEntries(entries))
  {
    var linked := LinkedEntries(entries);
    forall i | 0 <= i < |linked| ensures linked[i].url.Some? {
      assert linked[i] in linked;
    }
    if entries != [] {
      SocialAnchorsPerLinkedEntry(entries[1..]);
      var rest := LinkedEntries(entries[1..]);
      if TruthyOpt(entries[0].url) {
        assert linked == [entries[0]] + rest;
        assert linked[1..] == rest;
      } else {
        assert linked == rest;
      }
    }
  }
}
