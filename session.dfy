/**
 * The editing session of the signature generator: the record being edited and the
 * `copySuccess` flag, changed in place by the session's operations. Each operation is
 * proved to leave exactly the state the corresponding pure update in `SignatureData`
 * describes.
 */
module SignatureSession {
  import opened Optional
  import opened JsString
  import opened SignatureData
  import opened SignatureHtml

  /** What the browser offers: whether `navigator.clipboard` and `window.ClipboardItem`
      exist, and whether the write that is attempted resolves (rather than rejects). */
  datatype Platform = Platform(hasClipboard: bool, hasClipboardItem: bool, writeSucceeds: bool)

  /** A clipboard write: one item with an HTML and a plain-text part, or a plain text. */
  datatype ClipboardWrite = MultiFormat(html: string, plain: string) | TextOnly(text: string)

  /** The write `copyToClipboard` attempts: the two-part item when both the clipboard and
      `ClipboardItem` exist, else `writeText(html)`; without a clipboard there is nothing
      to call and the attempt throws before writing. */
  function AttemptedWrite(p: Platform, d: Signature): (w: Option<ClipboardWrite>)
    ensures w.None? <==> !p.hasClipboard
    ensures w.Some? && w.value.MultiFormat? ==> w.value.plain == d.fullName
    ensures w.Some? ==> (w.value.MultiFormat? <==> p.hasClipboardItem)
  {
    if !p.hasClipboard then None
    else if p.hasClipboardItem then Some(MultiFormat(GenerateHTML(d), d.fullName))
    else Some(TextOnly(GenerateHTML(d)))
  }

  /** `copyToClipboard` resolves to true exactly when a write was attempted and it
      succeeded; every other path ends in the `catch` and resolves to false. */
  predicate CopySucceeds(p: Platform) {
    p.hasClipboard && p.writeSucceeds
  }

  /** Both writes carry the generated markup: the item as its HTML part, the fallback as
      its text. */
  lemma WritesCarryMarkup(p: Platform, d: Signature)
    requires p.hasClipboard
    ensures AttemptedWrite(p, d) == Some(MultiFormat(GenerateHTML(d), d.fullName)) ||
            AttemptedWrite(p, d) == Some(TextOnly(GenerateHTML(d)))
    ensures p.hasClipboardItem ==> AttemptedWrite(p, d).value.html == GenerateHTML(d)
    ensures !p.hasClipboardItem ==> AttemptedWrite(p, d).value.text == GenerateHTML(d)
  {
  }

  class Session {
    var data: Signature
    var copySuccess: bool

    /** The initial state: empty texts, one blank position, no optional field. */
    constructor()
      ensures data == Empty && !copySuccess
    {
      data := Empty;
      copySuccess := false;
    }

    /** `updateField(field, value)` for a text field (and `updateSignatureData`, which
        only forwards to it). */
    method UpdateField(f: TextField, v: string)
      modifies this
      ensures data == WithField(old(data), f, v)
      ensures copySuccess == old(copySuccess)
    {
      data := WithField(data, f, v);
    }

    /** `updateField('positions', list)`: the list replaces the positions as given. */
    method SetPositions(ps: seq<string>)
      modifies this
      ensures data == old(data).(positions := ps)
      ensures copySuccess == old(copySuccess)
    {
      data := data.(positions := ps);
    }

    /** `addPosition()`. */
    method AddPosition()
      modifies this
      ensures data == old(data).(positions := AppendBlank(old(data).positions))
      ensures |data.positions| == |old(data).positions| + 1
      ensures copySuccess == old(copySuccess)
    {
      data := data.(positions := AppendBlank(data.positions));
    }

    /** `updatePosition(index, value)`; an index outside the list changes nothing. */
    method UpdatePosition(index: int, value: string)
      modifies this
      ensures data == old(data).(positions := ReplaceAt(old(data).positions, index, value))
      ensures !(0 <= index < |old(data).positions|) ==> data == old(data)
      ensures copySuccess == old(copySuccess)
    {
      data := data.(positions := ReplaceAt(data.positions, index, value));
      assert !(0 <= index < |old(data).positions|) ==> data.positions == old(data).positions;
    }

    /** `removePosition(index)`; an index outside the list changes nothing, and the last
        position can be removed too. */
    method RemovePosition(index: int)
      modifies this
      ensures data == old(data).(positions := RemoveAt(old(data).positions, index))
      ensures 0 <= index < |old(data).positions| ==> |data.positions| == |old(data).positions| - 1
      ensures copySuccess == old(copySuccess)
    {
      data := data.(positions := RemoveAt(data.positions, index));
    }

    /** `resetForm()`: back to the initial record, and the copy flag is cleared. */
    method ResetForm()
      modifies this
      ensures data == Empty && !copySuccess
    {
      data := Empty;
      copySuccess := false;
    }

    /** `copyToClipboard()`. The platform decides which write is attempted and whether it
        succeeds; on success the flag is raised (the timer that lowers it three seconds
        later is not part of this model), on failure the flag is left as it was. The
        record is never changed. */
    method CopyToClipboard(p: Platform) returns (ok: bool, written: Option<ClipboardWrite>)
      modifies this
      ensures data == old(data)
      ensures ok <==> CopySucceeds(p)
      ensures written == (if ok then AttemptedWrite(p, data) else None)
      ensures copySuccess == (ok || old(copySuccess))
    {
      var attempt := AttemptedWrite(p, data);
      if attempt.None? || !p.writeSucceeds {
        ok, written := false, None;
      } else {
        written := attempt;
        copySuccess := true;
        ok := true;
      }
    }
  }

  /** The initial record and the reset record are the same: empty name, email, phone,
      department and campus, a single blank position, and no optional field. */
  lemma EmptyRecord()
    ensures Empty.fullName == "" && Empty.email == "" && Empty.phone == ""
    ensures Empty.department == "" && Empty.campus == "" && Empty.positions == [""]
    ensures Empty.additionalLink.None? && Empty.additionalLinkText.None? && Empty.social.None?
    ensures Empty.orcid.None? && Empty.website.None? && Empty.isCiaraMemb.None?
    ensures FilledPositions(Empty.positions) == []
  {
    assert FilledPositions([""]) == [] by {
      assert IsBlank("");
    }
  }

  /** Adding a position and then removing the new last one restores the session's
      record. */
  method AddThenRemoveRestores(s: Session)
    modifies s
    ensures s.data == old(s.data) && s.copySuccess == old(s.copySuccess)
  {
    var n := |s.data.positions|;
    s.AddPosition();
    s.RemovePosition(n);
    AppendThenRemove(old(s.data.positions));
    assert s.data.positions == old(s.data.positions);
  }
}
