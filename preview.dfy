/**
 * The live preview: the size of the logo, kept in step with the height of the text
 * column; the rows the preview shows; and the copy button's handler.
 */
module SignaturePreview {
  import opened Optional
  import opened JsString
  import opened SignatureData
  import opened SignatureHtml
  import opened SignatureSession

  // ---------------------------------------------------------------------------
  // Logo size
  // ---------------------------------------------------------------------------

  const InitialLogoSize: real := 90.0
  const MinLogoSize: real := 80.0
  const MaxLogoSize: real := 200.0
  /** The logo follows the computed size only when it is off by more than this. */
  const Hysteresis: real := 5.0

  function Abs(x: real): (r: real)
    ensures r >= 0.0 && (r == x || r == -x)
  {
    if x < 0.0 then -x else x
  }

  /** `contentRef.current?.offsetHeight || 0`: a missing column measures 0. */
  function MeasuredHeight(offsetHeight: Option<nat>): nat {
    offsetHeight.GetOr(0)
  }

  /** `Math.max(80, Math.min(200, contentHeight * 0.95))`. */
  function ComputedSize(height: nat): real {
    var scaled := height as real * 0.95;
    var capped := if scaled < MaxLogoSize then scaled else MaxLogoSize;
    if capped > MinLogoSize then capped else MinLogoSize
  }

  /** The computed size always lies between 80 and 200; it is 95% of the height in
      between, and a missing column gives the minimum. */
  lemma ComputedSizeBounds(height: nat)
    ensures MinLogoSize <= ComputedSize(height) <= MaxLogoSize
    ensures MinLogoSize <= height as real * 0.95 <= MaxLogoSize ==> ComputedSize(height) == height as real * 0.95
    ensures ComputedSize(MeasuredHeight(None)) == MinLogoSize
  {
  }

  /** A taller column never gives a smaller logo. */
  lemma ComputedSizeMonotone(h1: nat, h2: nat)
    requires h1 <= h2
    ensures ComputedSize(h1) <= ComputedSize(h2)
  {
  }

  /** The update of `calculateLogoSize`: jump to the computed size when the stored one
      is more than 5 away from it, else keep the stored one. */
  function Step(current: real, computed: real): real {
    if Abs(computed - current) > Hysteresis then computed else current
  }

  /** After a step the stored size is within 5 of the computed one, and it only moves
      when it has to. */
  lemma StepSettles(current: real, computed: real)
    ensures Abs(Step(current, computed) - computed) <= Hysteresis
    ensures Step(current, computed) == current || Step(current, computed) == computed
    ensures Abs(computed - current) <= Hysteresis ==> Step(current, computed) == current
  {
  }

  /** Recalculating with the same height a second time changes nothing. */
  lemma StepIdempotent(current: real, computed: real)
    ensures Step(Step(current, computed), computed) == Step(current, computed)
  {
  }

  predicate InRange(size: real) {
    MinLogoSize <= size <= MaxLogoSize
  }

  /** A size between 80 and 200 stays there whatever the column measures. */
  lemma StepKeepsRange(current: real, height: nat)
    requires InRange(current)
    ensures InRange(Step(current, ComputedSize(height)))
  {
    ComputedSizeBounds(height);
  }

  /** The `logoSize` state of the preview. */
  class LogoSizer {
    var logoSize: real

    predicate Valid()
      reads this
    {
      InRange(logoSize)
    }

    constructor()
      ensures logoSize == InitialLogoSize && Valid()
    {
      logoSize := InitialLogoSize;
    }

    /** `calculateLogoSize()`, compared against the size the preview currently holds. */
    method Recalculate(offsetHeight: Option<nat>)
      requires Valid()
      modifies this
      ensures logoSize == Step(old(logoSize), ComputedSize(MeasuredHeight(offsetHeight)))
      ensures Valid()
      ensures Abs(logoSize - ComputedSize(MeasuredHeight(offsetHeight))) <= Hysteresis
    {
      var newSize := ComputedSize(MeasuredHeight(offsetHeight));
      StepKeepsRange(logoSize, MeasuredHeight(offsetHeight));
      StepSettles(logoSize, newSize);
      if Abs(newSize - logoSize) > Hysteresis {
        logoSize := newSize;
      }
    }
  }

  /** As written, the resize observer runs the `calculateLogoSize` of the render in
      which the effect last ran (the effect depends on the data only), so it compares
      against the size captured then, not the size the preview holds now. */
  function StaleStep(captured: real, current: real, computed: real): real {
    if Abs(computed - captured) > Hysteresis then computed else current
  }

  /** With 90 captured and 190 held, a column of height 100 computes 95: the stale check
      sees no change and the logo stays at 190, 95 away from its computed size; the
      intended step moves it to 95. */
  lemma StaleObserverKeepsWrongSize()
    ensures ComputedSize(100) == 95.0
    ensures StaleStep(InitialLogoSize, 190.0, ComputedSize(100)) == 190.0
    ensures Abs(StaleStep(InitialLogoSize, 190.0, ComputedSize(100)) - ComputedSize(100)) > Hysteresis
    ensures Step(190.0, ComputedSize(100)) == 95.0
  {
  }

  // ---------------------------------------------------------------------------
  // Preview rows
  // ---------------------------------------------------------------------------

  /** The five icons the social row can hold. */
  datatype IconKind = ScholarIcon | LinkedInIcon | OrcidIcon | WebsiteIcon | CiaraIcon

  /** An icon of the social row: a link to a url the user gave, or the CIARA badge,
      which links nowhere. */
  datatype Icon = LinkedIcon(url: string, kind: IconKind) | Badge

  /** The hosted image each icon shows. */
  function IconImage(kind: IconKind): string {
    match kind
    case ScholarIcon => "https://i.imgur.com/visHiHK.png"
    case LinkedInIcon => "https://i.imgur.com/2VBQAgT.png"
    case OrcidIcon => "https://i.imgur.com/to2V1e9.png"
    case WebsiteIcon => "https://i.imgur.com/HZhe06X.png"
    case CiaraIcon => "https://i.imgur.com/LWlb8oT.png"
  }

  /** The alternative text of each icon. */
  function IconAlt(kind: IconKind): string {
    match kind
    case ScholarIcon => "Google Scholar"
    case LinkedInIcon => "LinkedIn"
    case OrcidIcon => "ORCID"
    case WebsiteIcon => "Sitio Web"
    case CiaraIcon => "CIARA UCN"
  }

  datatype PreviewRow =
    | Heading(name: string)
    | PositionPara(text: string)
    | DepartmentPara
    | UniversityPara
    | AddressPara
    | PhonePara(phone: string)
    | EmailPara(address: string)
    | IconRow(icons: seq<Icon>)
    | RulePara

  function GoogleScholar(d: Signature): Option<string> {
    SocialUrl(d.social, "googleScholar")
  }

  function LinkedIn(d: Signature): Option<string> {
    SocialUrl(d.social, "linkedin")
  }

  /** The icons, in the order Google Scholar, LinkedIn, ORCID, website, CIARA. */
  function SocialIcons(d: Signature): seq<Icon> {
    (if TruthyOpt(GoogleScholar(d)) then [LinkedIcon(GoogleScholar(d).value, ScholarIcon)] else []) +
    (if TruthyOpt(LinkedIn(d)) then [LinkedIcon(LinkedIn(d).value, LinkedInIcon)] else []) +
    (if TruthyOpt(d.orcid) then [LinkedIcon(d.orcid.value, OrcidIcon)] else []) +
    (if TruthyOpt(d.website) then [LinkedIcon(d.website.value, WebsiteIcon)] else []) +
    (if d.isCiaraMemb == Some(true) then [Badge] else [])
  }

  /** The guard of the social row. */
  predicate AnySocial(d: Signature) {
    TruthyOpt(GoogleScholar(d)) || TruthyOpt(LinkedIn(d)) || TruthyOpt(d.orcid) ||
    TruthyOpt(d.website) || d.isCiaraMemb == Some(true)
  }

  /** `positions.filter(Boolean)`: only the empty string is dropped. */
  function NonEmptyPositions(ps: seq<string>): (r: seq<string>)
    ensures forall p :: p in r <==> p in ps && p != ""
  {
    if ps == [] then [] else (if ps[0] != "" then [ps[0]] else []) + NonEmptyPositions(ps[1..])
  }

  /** The filter keeps order and repeats: filtering a concatenation concatenates the
      filtered parts. */
  lemma {:induction false} NonEmptyPositionsConcat(a: seq<string>, b: seq<string>)
    ensures NonEmptyPositions(a + b) == NonEmptyPositions(a) + NonEmptyPositions(b)
  {
    if a == [] {
      assert a + b == b;
    } else {
      assert (a + b)[1..] == a[1..] + b;
      NonEmptyPositionsConcat(a[1..], b);
    }
  }

  function PositionParas(ps: seq<string>): (r: seq<PreviewRow>)
    ensures |r| == |ps|
    ensures forall i :: 0 <= i < |r| ==> r[i] == PositionPara(ps[i])
  {
    if ps == [] then [] else [PositionPara(ps[0])] + PositionParas(ps[1..])
  }

  /** The rows after the heading: none of them is a heading. */
  function RowsAfterName(d: Signature): seq<PreviewRow> {
    PositionParas(NonEmptyPositions(d.positions)) + RowsAfterPositions(d)
  }

  /** The rows below the positions: none of them is a position paragraph. */
  function RowsAfterPositions(d: Signature): seq<PreviewRow> {
    [DepartmentPara, UniversityPara, AddressPara] +
    (if d.phone != "" then [PhonePara(d.phone)] else []) +
    (if d.email != "" then [EmailPara(d.email)] else []) +
    (if AnySocial(d) then [IconRow(SocialIcons(d))] else []) +
    [RulePara]
  }

  /** The rows of the preview's text column, top to bottom. */
  function PreviewRows(d: Signature): seq<PreviewRow> {
    (if d.fullName != "" then [Heading(d.fullName)] else []) + RowsAfterName(d)
  }

  /** The name heading only for a non-empty name. */
  lemma PreviewNameRow(d: Signature, name: string)
    ensures Heading(name) in PreviewRows(d) <==> d.fullName != "" && name == d.fullName
  {
    var parts := PositionParas(NonEmptyPositions(d.positions));
    ParasOnlyPositions(parts, NonEmptyPositions(d.positions), Heading(name));
    assert Heading(name) !in RowsAfterPositions(d);
  }

  /** The institutional lines and the rule are always shown. */
  lemma PreviewFixedRows(d: Signature)
    ensures DepartmentPara in PreviewRows(d) && UniversityPara in PreviewRows(d)
    ensures AddressPara in PreviewRows(d) && RulePara in PreviewRows(d)
  {
  }

  /** A phone row exactly for a non-empty phone, an e-mail row exactly for a non-empty
      address. */
  lemma PreviewContactRows(d: Signature, phone: string, address: string)
    ensures PhonePara(phone) in PreviewRows(d) <==> d.phone != "" && phone == d.phone
    ensures EmailPara(address) in PreviewRows(d) <==> d.email != "" && address == d.email
  {
    var parts := PositionParas(NonEmptyPositions(d.positions));
    ParasOnlyPositions(parts, NonEmptyPositions(d.positions), PhonePara(phone));
    ParasOnlyPositions(parts, NonEmptyPositions(d.positions), EmailPara(address));
    ContactRowsBelowPositions(d, phone, address);
  }

  /** Below the positions, the phone and e-mail rows follow their fields. */
  lemma ContactRowsBelowPositions(d: Signature, phone: string, address: string)
    ensures PhonePara(phone) in RowsAfterPositions(d) <==> d.phone != "" && phone == d.phone
    ensures EmailPara(address) in RowsAfterPositions(d) <==> d.email != "" && address == d.email
  {
  }

  /** The position list contributes nothing but position paragraphs. */
  lemma ParasOnlyPositions(parts: seq<PreviewRow>, ps: seq<string>, row: PreviewRow)
    requires parts == PositionParas(ps) && !row.PositionPara?
    ensures row !in parts
  {
  }

  /** A paragraph for exactly the texts of the list. */
  lemma ParasMembers(ps: seq<string>, text: string)
    ensures PositionPara(text) in PositionParas(ps) <==> text in ps
  {
    var r := PositionParas(ps);
    if PositionPara(text) in r {
      var i :| 0 <= i < |r| && r[i] == PositionPara(text);
      assert ps[i] == text;
    }
    if text in ps {
      var i :| 0 <= i < |ps| && ps[i] == text;
      assert r[i] == PositionPara(text);
    }
  }

  /** The position paragraphs are the non-empty positions, whitespace-only ones
      included. */
  lemma PreviewPositionRows(d: Signature, text: string)
    ensures PositionPara(text) in PreviewRows(d) <==> text in d.positions && text != ""
  {
    ParasMembers(NonEmptyPositions(d.positions), text);
    assert PositionPara(text) !in RowsAfterPositions(d);
  }

  /** The social row is shown exactly when one of its five sources is truthy, and then
      it is not empty. */
  lemma SocialRowShown(d: Signature)
    ensures (exists icons :: IconRow(icons) in PreviewRows(d)) <==> AnySocial(d)
    ensures AnySocial(d) <==> SocialIcons(d) != []
    ensures IconRow(SocialIcons(d)) in PreviewRows(d) <==> AnySocial(d)
  {
    var parts := PositionParas(NonEmptyPositions(d.positions));
    var tail := RowsAfterPositions(d);
    if AnySocial(d) {
      assert tail[|tail| - 2] == IconRow(SocialIcons(d));
    } else {
      forall icons ensures IconRow(icons) !in PreviewRows(d) {
        assert IconRow(icons) !in parts && IconRow(icons) !in tail;
      }
    }
  }

  /** The field each linked icon takes its url from; the badge has none. */
  function IconSource(d: Signature, kind: IconKind): Option<string> {
    match kind
    case ScholarIcon => GoogleScholar(d)
    case LinkedInIcon => LinkedIn(d)
    case OrcidIcon => d.orcid
    case WebsiteIcon => d.website
    case CiaraIcon => None
  }

  /** Every icon but the CIARA badge links to the non-empty url the user gave for its
      own kind, and the badge appears exactly for a CIARA member. */
  lemma IconsLinkUserUrls(d: Signature, icon: Icon)
    requires icon in SocialIcons(d)
    ensures icon.LinkedIcon? ==> icon.url != "" && IconSource(d, icon.kind) == Some(icon.url)
    ensures icon.Badge? ==> d.isCiaraMemb == Some(true)
  {
  }

  /** Each kind of icon is shown exactly when its source is truthy. */
  lemma IconShownIffSource(d: Signature, kind: IconKind)
    requires kind != CiaraIcon
    ensures (exists url :: LinkedIcon(url, kind) in SocialIcons(d)) <==> TruthyOpt(IconSource(d, kind))
    ensures Badge in SocialIcons(d) <==> d.isCiaraMemb == Some(true)
  {
    if TruthyOpt(IconSource(d, kind)) {
      assert LinkedIcon(IconSource(d, kind).value, kind) in SocialIcons(d);
    }
  }

  /** The preview and the generated markup disagree on a whitespace-only position: the
      preview shows it, the markup leaves it out. */
  lemma WhitespacePositionOnlyInPreview(d: Signature, p: string)
    requires p in d.positions && p != "" && IsBlank(p)
    ensures PositionPara(p) in PreviewRows(d)
    ensures PositionLine(p) !in Lines(d)
  {
    PreviewPositionRows(d, p);
    PositionRow(d, p);
  }

  /** Such a position exists: a single space. */
  lemma SpaceIsWhitespacePosition()
    ensures " " != "" && IsBlank(" ")
  {
    assert IsJsSpace(" "[0]);
  }

  // ---------------------------------------------------------------------------
  // The copy button
  // ---------------------------------------------------------------------------

  /** The rendered preview node: its `outerHTML` and its `innerText`. */
  datatype RenderedNode = RenderedNode(outerHtml: string, innerText: string)

  datatype CopyOutcome = Skipped | Alerted | Copied

  /** The write the preview attempts: its own markup and text as one item, or its text
      alone as the fallback. */
  function PreviewWrite(p: Platform, node: RenderedNode): (w: Option<ClipboardWrite>)
    ensures w.None? <==> !p.hasClipboard
    ensures w.Some? ==> (w.value.MultiFormat? <==> p.hasClipboardItem)
    ensures w.Some? && w.value.TextOnly? ==> w.value.text == node.innerText
  {
    if !p.hasClipboard then None
    else if p.hasClipboardItem then Some(MultiFormat(node.outerHtml, node.innerText))
    else Some(TextOnly(node.innerText))
  }

  /** The two fallbacks differ: the preview writes its plain text, the session writes
      the generated markup. */
  lemma FallbacksDiffer(p: Platform, node: RenderedNode, d: Signature)
    requires p.hasClipboard && !p.hasClipboardItem
    ensures PreviewWrite(p, node) == Some(TextOnly(node.innerText))
    ensures AttemptedWrite(p, d) == Some(TextOnly(GenerateHTML(d)))
  {
  }

  /** `handleCopy()`, with the application's `onCopy` (the session's copy) as the
      callback. Without a node nothing happens; a failed write ends in an alert without
      calling back; a successful one calls back, and what the session then writes
      replaces the preview's write. `p` is the platform at the preview's write, `q` at
      the session's. */
  method HandleCopy(node: Option<RenderedNode>, p: Platform, q: Platform, s: Session)
      returns (outcome: CopyOutcome, writes: seq<ClipboardWrite>)
    modifies s
    ensures outcome == Skipped <==> node.None?
    ensures outcome == Copied <==> node.Some? && CopySucceeds(p)
    ensures outcome != Copied ==> writes == [] && s.data == old(s.data) && s.copySuccess == old(s.copySuccess)
    ensures outcome == Copied ==>
      s.data == old(s.data) && s.copySuccess == (CopySucceeds(q) || old(s.copySuccess)) &&
      writes == [PreviewWrite(p, node.value).value] +
                (if CopySucceeds(q) then [AttemptedWrite(q, s.data).value] else [])
  {
    if node.None? {
      return Skipped, [];
    }
    var attempt := PreviewWrite(p, node.value);
    if attempt.None? || !p.writeSucceeds {
      return Alerted, [];
    }
    writes := [attempt.value];
    var ok, written := s.CopyToClipboard(q);
    if ok {
      writes := writes + [written.value];
    }
    outcome := Copied;
  }
}
