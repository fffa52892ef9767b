/**
 * The cancellation dialog: a confirmation gate that only lets a cancellation through
 * with a reason of at least ten characters once trimmed, and hands that trimmed reason on.
 */
module CancelReason {
  import opened Optional
  import opened Text

  /** The shortest accepted reason, counted on the trimmed text. */
  const MinReasonLength := 10

  datatype EntityType = Besoin | Da | Bl

  /** The entity named in the dialog's default title and description. */
  function EntityLabel(t: EntityType): (r: string)
    ensures r != []
  {
    match t
    case Besoin => "ce besoin"
    case Da => "cette demande d'achat"
    case Bl => "ce bon de livraison"
  }

  /** Each entity type has its own label, so the fallback texts tell them apart. */
  lemma EntityLabelsDistinct(a: EntityType, b: EntityType)
    ensures EntityLabel(a) == EntityLabel(b) ==> a == b
  {
  }

  /** The `entityType` prop, which defaults to a procurement request. */
  function EntityOrDefault(entityType: Option<EntityType>): EntityType {
    entityType.GetOr(Da)
  }

  /**
   * `title || \`Annuler ${entityLabel}\``: a non-empty title is shown as given; an absent or
   * empty one falls back to a text naming the entity. The title is never empty.
   */
  function Title(title: Option<string>, entityType: Option<EntityType>): (r: string)
    ensures r != []
    ensures title.Some? && title.value != [] ==> r == title.value
    ensures title.None? || title.value == [] ==> Contains(r, EntityLabel(EntityOrDefault(entityType)))
  {
    if title.Some? && title.value != [] then title.value
    else
      var entity := EntityLabel(EntityOrDefault(entityType));
      ContainsMiddle("Annuler ", entity, "");
      assert "Annuler " + entity + "" == "Annuler " + entity;
      "Annuler " + entity
  }

  /** The default title for a dialog given no title (absent or empty) and no entity type. */
  lemma DefaultTitle()
    ensures Title(None, None) == "Annuler cette demande d'achat"
    ensures Title(Some([]), None) == Title(None, Some(Da)) == Title(None, None)
  {
    assert EntityOrDefault(None) == EntityOrDefault(Some(Da)) == Da;
    assert Title(None, None) == "Annuler " + EntityLabel(Da);
  }

  /** Two fallback titles are equal only for the same entity. */
  lemma FallbackTitlesDistinct(a: EntityType, b: EntityType)
    ensures Title(None, Some(a)) == Title(None, Some(b)) ==> a == b
  {
    var p := "Annuler ";
    if Title(None, Some(a)) == Title(None, Some(b)) {
      assert (p + EntityLabel(a))[|p|..] == EntityLabel(a);
      assert (p + EntityLabel(b))[|p|..] == EntityLabel(b);
      EntityLabelsDistinct(a, b);
    }
  }

  /**
   * `description || ...`: a non-empty description is shown as given; an absent or empty one
   * falls back to the audit notice, which names the entity. The description is never empty.
   */
  function Description(description: Option<string>, entityType: Option<EntityType>): (r: string)
    ensures r != []
    ensures description.Some? && description.value != [] ==> r == description.value
    ensures description.None? || description.value == [] ==>
              Contains(r, EntityLabel(EntityOrDefault(entityType)))
  {
    if description.Some? && description.value != [] then description.value
    else
      var entity := EntityLabel(EntityOrDefault(entityType));
      var before := "Cette action est irréversible. L'annulation de ";
      var after := " sera enregistrée dans le journal d'audit avec votre identité et la date.";
      ContainsMiddle(before, entity, after);
      before + entity + after
  }

  /** The default description, for a dialog given no description and no entity type. */
  lemma DefaultDescription()
    ensures Description(None, None) == "Cette action est irréversible. L'annulation de "
      + "cette demande d'achat" + " sera enregistrée dans le journal d'audit avec votre identité et la date."
    ensures Description(Some([]), None) == Description(None, Some(Da)) == Description(None, None)
  {
    assert EntityOrDefault(None) == EntityOrDefault(Some(Da)) == Da;
  }

  /**
   * The gate of `handleConfirm`: the trimmed reason is long enough. Trimming never
   * lengthens, so an accepted reason is at least that long as typed.
   */
  predicate ReasonAccepted(reason: string)
    ensures ReasonAccepted(reason) ==> |reason| >= MinReasonLength
  {
    |Trim(reason)| >= MinReasonLength
  }

  /** The confirm button's `disabled` prop: disabled while loading and for any short text. */
  predicate ConfirmDisabled(reason: string, isLoading: bool)
    ensures isLoading ==> ConfirmDisabled(reason, isLoading)
    ensures |reason| < MinReasonLength ==> ConfirmDisabled(reason, isLoading)
  {
    |Trim(reason)| < MinReasonLength || isLoading
  }

  /**
   * Whether the "at least 10 characters" hint is shown; it counts the untrimmed text, and
   * is never shown next to an accepted reason.
   */
  predicate ShowLengthWarning(reason: string)
    ensures ShowLengthWarning(reason) ==> !ReasonAccepted(reason)
  {
    0 < |reason| < MinReasonLength
  }

  /** The button is enabled exactly when the dialog is idle and the reason passes the gate. */
  lemma EnabledIffAccepted(reason: string, isLoading: bool)
    ensures !ConfirmDisabled(reason, isLoading) <==> !isLoading && ReasonAccepted(reason)
  {
  }

  /** Whenever the hint is shown the button is disabled, since trimming never lengthens. */
  lemma WarningImpliesDisabled(reason: string, isLoading: bool)
    requires ShowLengthWarning(reason)
    ensures ConfirmDisabled(reason, isLoading)
  {
  }

  /** The boundary is exact: nine trimmed characters are refused, ten accepted. */
  lemma Boundary(reason: string)
    ensures |Trim(reason)| == 9 ==> ConfirmDisabled(reason, false) && !ReasonAccepted(reason)
    ensures |Trim(reason)| == 10 ==> !ConfirmDisabled(reason, false) && ReasonAccepted(reason)
  {
  }

  /**
   * A short reason padded with spaces up to ten characters is refused, yet no hint is shown:
   * the hint counts the raw text, the gate the trimmed text.
   */
  lemma PaddedReasonDisabledWithoutWarning(reason: string)
    requires |Trim(reason)| < MinReasonLength <= |reason|
    ensures !ShowLengthWarning(reason) && ConfirmDisabled(reason, false)
  {
  }

  /** A call the dialog makes to its parent. */
  datatype Callback = OnConfirm(reason: string) | OnOpenChange(open: bool)

  class CancelDialog {
    /** The text area's content. */
    var reason: string
    const title: Option<string>
    const description: Option<string>
    const entityType: Option<EntityType>
    const isLoading: bool

    /** A freshly mounted dialog has an empty reason. */
    constructor (title: Option<string>, description: Option<string>,
                 entityType: Option<EntityType>, isLoading: bool)
      ensures reason == []
      ensures this.title == title && this.description == description
      ensures this.entityType == entityType && this.isLoading == isLoading
    {
      reason := [];
      this.title := title;
      this.description := description;
      this.entityType := entityType;
      this.isLoading := isLoading;
    }

    /** The text area's `onChange`. */
    method Edit(value: string)
      modifies this
      ensures reason == value
    {
      reason := value;
    }

    /**
     * `handleConfirm`: when the trimmed reason is long enough, passes it on and clears the
     * field; otherwise does nothing. What is passed on is never short and never padded.
     */
    method HandleConfirm() returns (calls: seq<Callback>)
      modifies this
      ensures ReasonAccepted(old(reason)) ==> calls == [OnConfirm(Trim(old(reason)))] && reason == []
      ensures !ReasonAccepted(old(reason)) ==> calls == [] && reason == old(reason)
      ensures forall c :: c in calls ==>
                (c.OnConfirm? && |c.reason| >= MinReasonLength
                 && !IsSpace(c.reason[0]) && !IsSpace(c.reason[|c.reason| - 1]))
    {
      if ReasonAccepted(reason) {
        var trimmed := Trim(reason);
        calls := [OnConfirm(trimmed)];
        reason := [];
      } else {
        calls := [];
      }
    }

    /** `handleClose`: clears the reason and asks the parent to close the dialog. */
    method HandleClose() returns (calls: seq<Callback>)
      modifies this
      ensures reason == [] && calls == [OnOpenChange(false)]
    {
      reason := [];
      calls := [OnOpenChange(false)];
    }
  }
}
