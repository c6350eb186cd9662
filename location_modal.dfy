/**
 * The add/edit location dialog: the duplicate-postcode warning against the
 * cached location list, change detection in edit mode, the rule that
 * disables the Save button, and the validation and normalisation of the
 * address handed to the parent's save handler.
 */
module LocationModal {
  import opened Wrappers
  import opened Text

  /** The address fields of a location the dialog edits; each may be missing. */
  datatype LocationData = LocationData(
    locationLabel: Option<string>,
    addressLine1: Option<string>,
    addressLine2: Option<string>,
    townOrcity: Option<string>,
    county: Option<string>,
    postcode: Option<string>)

  /** The normalised address passed to `onSave`. */
  datatype SavedLocation = SavedLocation(
    street: string,
    postcode: string,
    locationLabel: string,
    townOrcity: string,
    county: string)

  /** An entry of the cached location list; only its postal code is read. */
  datatype CachedLocation = CachedLocation(postalCode: Option<string>)

  /** How the parent's save handler settles: it resolves, or it throws an error with an optional message. */
  datatype SaveOutcome = Resolved | Rejected(message: Option<string>)

  const RequiredFieldsMessage := "Please fill in all required fields"
  const SaveFailedMessage := "Failed to save location"
  const DuplicatePrefix := "Please note that there is another address associated with postcode "

  /** The warning shown for a postcode already in use. */
  function DuplicateMessage(postcode: string): string {
    DuplicatePrefix + postcode + "."
  }

  /** `f?.trim()` is truthy: the field is there and not blank. */
  predicate Present(f: Option<string>) {
    f.Some? && !IsBlank(f.value)
  }

  /** The four fields without which nothing is saved. */
  predicate RequiredFilled(loc: LocationData) {
    Present(loc.locationLabel) && Present(loc.addressLine1)
    && Present(loc.townOrcity) && Present(loc.postcode)
  }

  /** The trimmed address line, as a one-element list, or no element when it is missing or blank. */
  function LinePart(f: Option<string>): seq<string> {
    if Present(f) then [Trim(f.value)] else []
  }

  /** The two address lines, trimmed, blank ones dropped, joined by ", ". */
  function Street(loc: LocationData): string {
    Join(LinePart(loc.addressLine1) + LinePart(loc.addressLine2), ", ")
  }

  /** The validation and transformation at the start of `handleSave`. */
  function Transform(loc: LocationData): Result<SavedLocation, string> {
    if !RequiredFilled(loc) then Err(RequiredFieldsMessage)
    else Ok(SavedLocation(
      Street(loc),
      Trim(loc.postcode.value),
      Trim(loc.locationLabel.value),
      Trim(loc.townOrcity.value),
      if loc.county.Some? then Trim(loc.county.value) else ""))
  }

  /** A postcode as it is compared: trimmed and lower-cased. */
  function Normalize(s: string): string {
    ToLower(Trim(s))
  }

  /**
   * The decision of `checkDuplicatePostcode`: never in edit mode, never for a
   * blank postcode, never without a cached list; otherwise exactly when some
   * cached location has a postal code equal to this one once both are
   * normalised.
   */
  predicate IsDuplicatePostcode(editMode: bool, postcode: string, cached: Option<seq<CachedLocation>>) {
    && !editMode
    && !IsBlank(postcode)
    && cached.Some?
    && exists i :: 0 <= i < |cached.value| && cached.value[i].postalCode.Some?
         && Normalize(cached.value[i].postalCode.value) == Normalize(postcode)
  }

  /** `checkForChanges`: in edit mode with both locations, whether any of the six fields differs. */
  predicate CheckForChanges(editMode: bool, initial: Option<LocationData>, current: Option<LocationData>) {
    if !editMode || initial.None? || current.None? then false
    else
      var a, b := current.value, initial.value;
      a.locationLabel != b.locationLabel || a.addressLine1 != b.addressLine1
      || a.addressLine2 != b.addressLine2 || a.townOrcity != b.townOrcity
      || a.county != b.county || a.postcode != b.postcode
  }

  /** `hasValidationErrors`: some field carries a non-empty message. */
  predicate HasValidationErrors(errors: map<string, string>) {
    exists k :: k in errors && errors[k] != ""
  }

  /** `isSaveDisabled`. */
  predicate SaveDisabled(isSaving: bool, errors: map<string, string>, editMode: bool, hasChanges: bool) {
    if isSaving || HasValidationErrors(errors) then true
    else editMode && !hasChanges
  }

  /** The error message `handleSave` shows when the save handler throws. */
  function FailureMessage(message: Option<string>): string {
    if message.Some? && message.value != "" then message.value else SaveFailedMessage
  }

  /**
   * Saving is refused, with the required-fields message, exactly when the
   * label, the first address line, the town or the postcode is missing or blank.
   */
  lemma TransformRefusesBlank(loc: LocationData)
    ensures Transform(loc).Err? <==>
      (exists f :: f in {loc.locationLabel, loc.addressLine1, loc.townOrcity, loc.postcode} && !Present(f))
    ensures Transform(loc).Err? ==> Transform(loc).error == RequiredFieldsMessage
  {
    if !RequiredFilled(loc) {
      var f := if !Present(loc.locationLabel) then loc.locationLabel
        else if !Present(loc.addressLine1) then loc.addressLine1
        else if !Present(loc.townOrcity) then loc.townOrcity
        else loc.postcode;
      assert f in {loc.locationLabel, loc.addressLine1, loc.townOrcity, loc.postcode};
    }
  }

  /**
   * A saved address has its postcode, label and town trimmed and non-empty,
   * each the trimmed form of what was entered; the county is trimmed, and
   * empty when none was entered.
   */
  lemma TransformTrims(loc: LocationData)
    requires Transform(loc).Ok?
    ensures var s := Transform(loc).value;
      && s.postcode != "" && IsTrimmed(s.postcode) && s.postcode == Trim(loc.postcode.value)
      && s.locationLabel != "" && IsTrimmed(s.locationLabel) && s.locationLabel == Trim(loc.locationLabel.value)
      && s.townOrcity != "" && IsTrimmed(s.townOrcity) && s.townOrcity == Trim(loc.townOrcity.value)
      && IsTrimmed(s.county) && (loc.county.None? ==> s.county == "")
  {
    TrimmedEnds(loc.postcode.value);
    TrimmedEnds(loc.locationLabel.value);
    TrimmedEnds(loc.townOrcity.value);
    if loc.county.Some? {
      TrimmedEnds(loc.county.value);
    }
  }

  /**
   * The street is the trimmed first line, then ", " and the trimmed second
   * line when that one is not blank; a saved address always has a street
   * starting with the first line.
   */
  lemma StreetShape(loc: LocationData)
    ensures var a1, a2 := loc.addressLine1, loc.addressLine2;
      && (Present(a1) && Present(a2) ==> Street(loc) == Trim(a1.value) + ", " + Trim(a2.value))
      && (Present(a1) && !Present(a2) ==> Street(loc) == Trim(a1.value))
      && (!Present(a1) && Present(a2) ==> Street(loc) == Trim(a2.value))
      && (!Present(a1) && !Present(a2) ==> Street(loc) == "")
    ensures Transform(loc).Ok? ==>
      var t := Trim(loc.addressLine1.value);
      |Transform(loc).value.street| >= |t| > 0 && Transform(loc).value.street[..|t|] == t
  {
    var p := LinePart(loc.addressLine1) + LinePart(loc.addressLine2);
    if Present(loc.addressLine1) && Present(loc.addressLine2) {
      assert p[1..] == [Trim(loc.addressLine2.value)];
      assert Join(p[1..], ", ") == Trim(loc.addressLine2.value);
      assert Street(loc) == p[0] + ", " + Join(p[1..], ", ");
    }
  }

  /**
   * Two postcodes that agree once trimmed and lower-cased get the same
   * verdict: the duplicate check ignores case and surrounding whitespace.
   */
  lemma DuplicateIgnoresCaseAndPadding(editMode: bool, p: string, q: string, cached: Option<seq<CachedLocation>>)
    requires Normalize(p) == Normalize(q)
    ensures IsDuplicatePostcode(editMode, p, cached) <==> IsDuplicatePostcode(editMode, q, cached)
  {
    ToLowerChars(Trim(p));
    ToLowerChars(Trim(q));
  }

  /** A cached location whose postal code matches up to case and padding makes a new postcode a duplicate. */
  lemma MatchingCachedIsDuplicate(postcode: string, cached: seq<CachedLocation>, i: nat)
    requires !IsBlank(postcode) && i < |cached| && cached[i].postalCode.Some?
    requires Normalize(cached[i].postalCode.value) == Normalize(postcode)
    ensures IsDuplicatePostcode(false, postcode, Some(cached))
    ensures !IsDuplicatePostcode(true, postcode, Some(cached))
  {
  }

  /**
   * In edit mode with both locations, a change is reported exactly when the
   * edited location differs from the initial one; outside edit mode, or
   * with a location missing, never.
   */
  lemma ChangesIffDifferent(editMode: bool, initial: Option<LocationData>, current: Option<LocationData>)
    ensures CheckForChanges(editMode, initial, current) <==>
      editMode && initial.Some? && current.Some? && initial.value != current.value
  {
  }

  /**
   * Save is enabled exactly when nothing is being saved, every validation
   * message is empty, and, in edit mode, something has changed; so an edit
   * that changes nothing can never be saved.
   */
  lemma SaveEnabledIff(isSaving: bool, errors: map<string, string>, editMode: bool, initial: LocationData, current: LocationData)
    ensures var changed := CheckForChanges(editMode, Some(initial), Some(current));
      !SaveDisabled(isSaving, errors, editMode, changed) <==>
        !isSaving && (forall k :: k in errors ==> errors[k] == "") && (!editMode || current != initial)
    ensures SaveDisabled(isSaving, errors, true, CheckForChanges(true, Some(initial), Some(initial)))
  {
    ChangesIffDifferent(editMode, Some(initial), Some(current));
  }

  /** A thrown error shows its own message when it has one, and the fallback otherwise; never an empty message. */
  lemma FailureMessageNonEmpty(message: Option<string>)
    ensures FailureMessage(message) != ""
    ensures Some(FailureMessage(message)) == message || FailureMessage(message) == SaveFailedMessage
  {
  }

  /**
   * The dialog's state: whether it edits an existing location, the location
   * it started from and the one being edited, the saving flag, the error
   * line, the duplicate warning, the validation messages, the change flag,
   * and, as observable effects, the addresses handed to `onSave` and
   * whether `onClose` was called.
   */
  class Dialog {
    const editMode: bool
    const initialLocation: Option<LocationData>
    var selectedLocation: Option<LocationData>
    var isSaving: bool
    var saveError: Option<string>
    var hasDuplicatePostcode: bool
    var validationErrors: map<string, string>
    var hasChanges: bool
    var saved: seq<SavedLocation>
    var closed: bool

    /**
     * Opening the dialog: an edit starts from the initial location with no
     * change recorded; an add starts with no location.
     */
    constructor (editMode: bool, initialLocation: Option<LocationData>)
      ensures this.editMode == editMode && this.initialLocation == initialLocation
      ensures selectedLocation == (if editMode then initialLocation else None)
      ensures !isSaving && saveError.None? && !hasDuplicatePostcode && validationErrors == map[]
      ensures !hasChanges && saved == [] && !closed
    {
      this.editMode := editMode;
      this.initialLocation := initialLocation;
      selectedLocation := if editMode then initialLocation else None;
      isSaving := false;
      saveError := None;
      hasDuplicatePostcode := false;
      validationErrors := map[];
      hasChanges := false;
      saved := [];
      closed := false;
    }

    /**
     * `checkDuplicatePostcode`: records and returns the verdict, and shows the
     * warning when the postcode is a duplicate; the error line is otherwise
     * left as it was.
     */
    method CheckDuplicatePostcode(postcode: string, cached: Option<seq<CachedLocation>>) returns (duplicate: bool)
      modifies this`hasDuplicatePostcode, this`saveError
      ensures duplicate == IsDuplicatePostcode(editMode, postcode, cached)
      ensures hasDuplicatePostcode == duplicate
      ensures saveError == if duplicate then Some(DuplicateMessage(postcode)) else old(saveError)
    {
      if editMode {
        hasDuplicatePostcode := false;
        return false;
      }
      if IsBlank(postcode) {
        hasDuplicatePostcode := false;
        return false;
      }
      if cached.Some? {
        var normalized := Normalize(postcode);
        duplicate := exists i :: (0 <= i < |cached.value| && cached.value[i].postalCode.Some?
          && Normalize(cached.value[i].postalCode.value) == normalized);
        if duplicate {
          saveError := Some(DuplicateMessage(postcode));
          hasDuplicatePostcode := true;
          return true;
        }
      }
      hasDuplicatePostcode := false;
      return false;
    }

    /** The effect that recomputes the change flag after the edited location changes, in edit mode. */
    method RefreshChanges()
      modifies this`hasChanges
      ensures hasChanges == if editMode then CheckForChanges(editMode, initialLocation, selectedLocation) else old(hasChanges)
    {
      if editMode {
        hasChanges := CheckForChanges(editMode, initialLocation, selectedLocation);
      }
    }

    /** Whether the Save button is disabled in the current state. */
    predicate IsSaveDisabled()
      reads this
    {
      SaveDisabled(isSaving, validationErrors, editMode, hasChanges)
    }

    /**
     * `handleSave`, with the parent's save handler settling as `outcome`:
     * nothing happens without a location; a location missing a required
     * field only shows the required-fields message; otherwise its
     * normalised form is handed to the save handler, the dialog closes when
     * that resolves and shows the thrown message when it rejects, and the
     * saving flag ends cleared.
     */
    method HandleSave(outcome: SaveOutcome)
      modifies this`isSaving, this`saveError, this`saved, this`closed
      ensures old(selectedLocation).None? ==>
        isSaving == old(isSaving) && saveError == old(saveError) && saved == old(saved) && closed == old(closed)
      ensures old(selectedLocation).Some? && Transform(old(selectedLocation).value).Err? ==>
        && saveError == Some(RequiredFieldsMessage)
        && isSaving == old(isSaving) && saved == old(saved) && closed == old(closed)
      ensures old(selectedLocation).Some? && Transform(old(selectedLocation).value).Ok? ==>
        && saved == old(saved) + [Transform(old(selectedLocation).value).value]
        && !isSaving
        && (outcome.Resolved? ==> closed && saveError.None?)
        && (outcome.Rejected? ==> closed == old(closed) && saveError == Some(FailureMessage(outcome.message)))
    {
      if selectedLocation.None? {
        return;
      }
      var t := Transform(selectedLocation.value);
      if t.Err? {
        saveError := Some(t.error);
        return;
      }
      isSaving := true;
      saveError := None;
      saved := saved + [t.value];
      match outcome {
        case Resolved =>
          closed := true;
        case Rejected(message) =>
          saveError := Some(FailureMessage(message));
      }
      isSaving := false;
    }
  }
}
