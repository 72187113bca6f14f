/** The decision logic of the privacy center's notice-driven consent page:
    how an empty stored preference gets its default, which consent items the
    page shows, how a toggle changes the draft, what the save request sends,
    and what is written to and removed from the browser once the save succeeds.

    Two fides-js helpers whose code is not part of this model are parameters:
    `toBoolean` is transformUserPreferenceToBoolean and `gpcStatusOf` is
    getGpcStatusFromNotice. The privacy-preferences mutation is the parameter
    `updatePreferences`. */
module NoticeDrivenConsent {
  import opened ConsentTypes
  import opened PreferenceRecord
  import opened Lookup

  /** `experience?.privacy_notices ?? []` */
  function NoticesOf(experience: Option<Experience>): seq<Notice> {
    match experience
    case None => []
    case Some(e) =>
      match e.privacyNotices
      case None => []
      case Some(notices) => notices
  }

  /** `n => n.privacy_notice_history_id === key` */
  function HasHistoryId(key: string): Notice -> bool {
    (n: Notice) => n.privacyNoticeHistoryId == key
  }

  /** `sn => sn.privacy_notice_history?.id === key` */
  function ServesHistoryId(key: string): ServedNotice -> bool {
    (sn: ServedNotice) => sn.noticeHistoryId == Some(key)
  }

  /** `notice?.consent_mechanism === ConsentMechanism.NOTICE_ONLY` */
  predicate IsNoticeOnly(notice: Option<Notice>) {
    notice.Some? && notice.value.consentMechanism == NoticeOnly
  }

  /** Global Privacy Control applies to a notice when the notice carries the
      GPC flag and the browser reports the signal as exactly `true`. */
  predicate GpcApplies(notice: Notice, context: ConsentContext) {
    notice.hasGpcFlag && context.globalPrivacyControl == Some(true)
  }

  // ---------------------------------------------------------------------------
  // Default resolution and the initial draft
  // ---------------------------------------------------------------------------

  /** resolveConsentValue: the default preference of a notice in a context.
      GPC overrides the notice's default with OPT_OUT, so it can only ever
      withdraw consent, never grant it. */
  function ResolveConsentValue(notice: Notice, context: ConsentContext): (r: UserConsentPreference)
    ensures GpcApplies(notice, context) ==> r == OptOut
    ensures !GpcApplies(notice, context) ==> r == notice.defaultPreference
    ensures r == OptIn ==> notice.defaultPreference == OptIn && !GpcApplies(notice, context)
  {
    if GpcApplies(notice, context) then OptOut else notice.defaultPreference
  }

  /** The default for an empty stored preference under `key`, computed as the
      page does with `notices.filter(...)[0]`: it is the resolved default of the
      first notice with that history id, and OPT_OUT when no notice has it. */
  function DefaultPreference(notices: seq<Notice>, key: string, context: ConsentContext): (r: UserConsentPreference)
    ensures Find(notices, HasHistoryId(key)).None? ==> r == OptOut
    ensures Find(notices, HasHistoryId(key)).Some? ==> r == ResolveConsentValue(Find(notices, HasHistoryId(key)).value, context)
  {
    var matching := Filter(notices, HasHistoryId(key));
    FilterHeadIsFind(notices, HasHistoryId(key));
    if |matching| > 0 then ResolveConsentValue(matching[0], context) else OptOut
  }

  /** The entry of the initial draft that stands for one stored entry. */
  function FilledEntry(entry: Entry, notices: seq<Notice>, context: ConsentContext): Entry {
    if entry.value.Some? then entry
    else Entry(entry.key, Some(DefaultPreference(notices, entry.key, context)))
  }

  /** The initial draft, entry by entry: each stored key in its slot, holding
      a defined value. */
  function InitialDraft(serverPreferences: Record, notices: seq<Notice>, context: ConsentContext): (draft: Record)
    ensures |draft| == |serverPreferences|
    ensures forall i :: 0 <= i < |draft| ==> draft[i].key == serverPreferences[i].key && draft[i].value.Some?
  {
    seq(|serverPreferences|, i requires 0 <= i < |serverPreferences| => FilledEntry(serverPreferences[i], notices, context))
  }

  /** What the initial draft is: the stored preferences with the same keys in
      the same order, every defined value kept, every empty value replaced by
      its default, and no value left undefined. */
  lemma InitialDraftSpec(serverPreferences: Record, notices: seq<Notice>, context: ConsentContext)
    requires WellFormed(serverPreferences)
    ensures Keys(InitialDraft(serverPreferences, notices, context)) == Keys(serverPreferences)
    ensures WellFormed(InitialDraft(serverPreferences, notices, context))
    ensures AllDefined(InitialDraft(serverPreferences, notices, context))
    ensures forall k :: Get(serverPreferences, k).Some? ==>
              Get(InitialDraft(serverPreferences, notices, context), k) == Get(serverPreferences, k)
    ensures forall k :: k in Keys(serverPreferences) && Get(serverPreferences, k).None? ==>
              Get(InitialDraft(serverPreferences, notices, context), k) == Some(DefaultPreference(notices, k, context))
  {
    var draft := InitialDraft(serverPreferences, notices, context);
    assert Keys(draft) == Keys(serverPreferences);
    forall k | Get(serverPreferences, k).Some? || k in Keys(serverPreferences)
      ensures Get(serverPreferences, k).Some? ==> Get(draft, k) == Get(serverPreferences, k)
      ensures Get(serverPreferences, k).None? ==> Get(draft, k) == Some(DefaultPreference(notices, k, context))
    {
      GetAbsent(serverPreferences, k);
      var i := KeyIndex(serverPreferences, k);
      GetAt(serverPreferences, i);
      GetAt(draft, i);
    }
  }

  /** initialDraftPreferences: copy the stored preferences, then walk their
      entries and overwrite each empty value with its default. */
  method InitialDraftPreferences(serverPreferences: Record, experience: Option<Experience>, context: ConsentContext)
    returns (draft: Record)
    requires WellFormed(serverPreferences)
    ensures draft == InitialDraft(serverPreferences, NoticesOf(experience), context)
  {
    draft := serverPreferences;
    var i := 0;
    while i < |serverPreferences|
      invariant 0 <= i <= |serverPreferences| && |draft| == |serverPreferences|
      invariant forall j :: 0 <= j < i ==> draft[j] == FilledEntry(serverPreferences[j], NoticesOf(experience), context)
      invariant forall j :: i <= j < |serverPreferences| ==> draft[j] == serverPreferences[j]
    {
      var entry := serverPreferences[i];
      if entry.value.None? {
        var notices := NoticesOf(experience);
        var defaultValue := DefaultPreference(notices, entry.key, context);
        assert WellFormed(draft) by {
          assert forall j :: 0 <= j < |draft| ==> draft[j].key == serverPreferences[j].key;
        }
        SetAt(draft, i, defaultValue);
        draft := Set(draft, entry.key, defaultValue);
      }
      i := i + 1;
    }
  }

  // ---------------------------------------------------------------------------
  // The consent items shown on the page
  // ---------------------------------------------------------------------------

  /** One consent item as the page renders it. */
  datatype Item<G> = Item(
    name: string,
    description: string,
    id: string,
    historyId: string,
    highlight: bool,
    url: Option<string>,
    value: bool,
    gpcStatus: G,
    disabled: bool)

  /** `s || ""` on an optional string. */
  function OrEmpty(s: Option<string>): string {
    match s
    case None => ""
    case Some(t) => t
  }

  function ItemFor<G>(notice: Notice, draft: Record, context: ConsentContext,
                      toBoolean: Option<UserConsentPreference> -> bool,
                      gpcStatusOf: (bool, Notice, ConsentContext) -> G): Item<G>
  {
    var value := toBoolean(Get(draft, notice.privacyNoticeHistoryId));
    Item(OrEmpty(notice.name), OrEmpty(notice.description), notice.id, notice.privacyNoticeHistoryId,
         false, None, value, gpcStatusOf(value, notice, context), notice.consentMechanism == NoticeOnly)
  }

  /** items: nothing without an experience or without notices; otherwise one
      item per notice, in notice order, showing the draft's value for the
      notice's history id and disabled exactly for notice-only notices. */
  function Items<G>(experience: Option<Experience>, draft: Record, context: ConsentContext,
                    toBoolean: Option<UserConsentPreference> -> bool,
                    gpcStatusOf: (bool, Notice, ConsentContext) -> G): (items: seq<Item<G>>)
    ensures experience.None? || experience.value.privacyNotices.None? ==> items == []
    ensures |items| == |NoticesOf(experience)|
    ensures forall i :: 0 <= i < |items| ==>
              var notice := NoticesOf(experience)[i];
              && items[i].id == notice.id
              && items[i].historyId == notice.privacyNoticeHistoryId
              && items[i].name == OrEmpty(notice.name)
              && items[i].description == OrEmpty(notice.description)
              && (items[i].disabled <==> notice.consentMechanism == NoticeOnly)
              && items[i].value == toBoolean(Get(draft, notice.privacyNoticeHistoryId))
              && items[i].gpcStatus == gpcStatusOf(items[i].value, notice, context)
              && !items[i].highlight && items[i].url == None
  {
    match experience
    case None => []
    case Some(e) =>
      match e.privacyNotices
      case None => []
      case Some(notices) =>
        if |notices| == 0 then []
        else seq(|notices|, i requires 0 <= i < |notices| => ItemFor(notices[i], draft, context, toBoolean, gpcStatusOf))
  }

  // ---------------------------------------------------------------------------
  // Toggling an item
  // ---------------------------------------------------------------------------

  /** handleChange: the draft after the item for `historyId` is switched on or
      off. That id then holds OPT_IN or OPT_OUT, every other id keeps its value,
      the ids keep their order (an id the draft lacked goes last), and a draft
      with every value defined stays so. */
  function ToggledDraft(draft: Record, historyId: string, value: bool): (r: Record)
    requires WellFormed(draft)
    ensures WellFormed(r)
    ensures Get(r, historyId) == Some(if value then OptIn else OptOut)
    ensures forall k :: k != historyId ==> Get(r, k) == Get(draft, k)
    ensures historyId in Keys(draft) ==> Keys(r) == Keys(draft)
    ensures historyId !in Keys(draft) ==> Keys(r) == Keys(draft) + [historyId]
    ensures AllDefined(draft) ==> AllDefined(r)
  {
    var pref := if value then OptIn else OptOut;
    SetSpec(draft, historyId, pref);
    SetDefined(draft, historyId, pref);
    Set(draft, historyId, pref)
  }

  // ---------------------------------------------------------------------------
  // The save request
  // ---------------------------------------------------------------------------

  /** A draft entry reconnected with its notice and its served-notice record. */
  datatype NoticePreference = NoticePreference(
    historyKey: string,
    preference: Option<UserConsentPreference>,
    notice: Option<Notice>,
    servedNotice: Option<ServedNotice>)

  /** `servedNotices?.find(sn => sn.privacy_notice_history?.id === key)` */
  function ServedFor(servedNotices: Option<seq<ServedNotice>>, key: string): Option<ServedNotice> {
    match servedNotices
    case None => None
    case Some(served) => Find(served, ServesHistoryId(key))
  }

  /** The draft's entries, in order, each with the first notice and the first
      served-notice record carrying its history id. */
  function NoticePreferences(draft: Record, notices: seq<Notice>, servedNotices: Option<seq<ServedNotice>>)
    : (nps: seq<NoticePreference>)
    ensures |nps| == |draft|
    ensures forall i :: 0 <= i < |draft| ==>
              nps[i] == NoticePreference(draft[i].key, draft[i].value,
                                         Find(notices, HasHistoryId(draft[i].key)), ServedFor(servedNotices, draft[i].key))
  {
    seq(|draft|, i requires 0 <= i < |draft| =>
      NoticePreference(draft[i].key, draft[i].value,
                       Find(notices, HasHistoryId(draft[i].key)), ServedFor(servedNotices, draft[i].key)))
  }

  /** The ConsentOptionCreate sent for one entry: ACKNOWLEDGE for a notice-only
      notice whatever the draft says, otherwise the draft's value, and OPT_OUT
      when that value is undefined. */
  function ConsentOption(np: NoticePreference): (option: ConsentOptionCreate)
    ensures option.privacyNoticeHistoryId == np.historyKey
    ensures IsNoticeOnly(np.notice) ==> option.preference == Acknowledge
    ensures !IsNoticeOnly(np.notice) && np.preference.Some? ==> option.preference == np.preference.value
    ensures !IsNoticeOnly(np.notice) && np.preference.None? ==> option.preference == OptOut
    ensures option.servedNoticeHistoryId.Some? <==> np.servedNotice.Some?
    ensures np.servedNotice.Some? ==> option.servedNoticeHistoryId == Some(np.servedNotice.value.servedNoticeHistoryId)
  {
    var served := match np.servedNotice case None => None case Some(sn) => Some(sn.servedNoticeHistoryId);
    if np.notice.Some? && np.notice.value.consentMechanism == NoticeOnly then
      ConsentOptionCreate(np.historyKey, Acknowledge, served)
    else
      ConsentOptionCreate(np.historyKey, match np.preference case Some(p) => p case None => OptOut, served)
  }

  /** No history id is sent twice. */
  ghost predicate DistinctHistoryIds(options: seq<ConsentOptionCreate>) {
    forall i, j :: 0 <= i < j < |options| ==> options[i].privacyNoticeHistoryId != options[j].privacyNoticeHistoryId
  }

  /** The `preferences` of the save request: one option per draft entry, in
      draft order, carrying the entry's key, so never the same id twice. */
  function BuildPreferences(draft: Record, notices: seq<Notice>, servedNotices: Option<seq<ServedNotice>>)
    : (options: seq<ConsentOptionCreate>)
    ensures |options| == |draft|
    ensures forall i :: 0 <= i < |draft| ==> options[i].privacyNoticeHistoryId == draft[i].key
    ensures forall i :: 0 <= i < |draft| && IsNoticeOnly(Find(notices, HasHistoryId(draft[i].key))) ==>
              options[i].preference == Acknowledge
    ensures forall i :: 0 <= i < |draft| && !IsNoticeOnly(Find(notices, HasHistoryId(draft[i].key))) ==>
              options[i].preference == (if draft[i].value.Some? then draft[i].value.value else OptOut)
    ensures forall i :: 0 <= i < |draft| && ServedFor(servedNotices, draft[i].key).Some? ==>
              options[i].servedNoticeHistoryId == Some(ServedFor(servedNotices, draft[i].key).value.servedNoticeHistoryId)
    ensures forall i :: 0 <= i < |draft| && ServedFor(servedNotices, draft[i].key).None? ==>
              options[i].servedNoticeHistoryId == None
    ensures WellFormed(draft) ==> DistinctHistoryIds(options)
  {
    var nps := NoticePreferences(draft, notices, servedNotices);
    seq(|nps|, i requires 0 <= i < |nps| => ConsentOption(nps[i]))
  }

  // ---------------------------------------------------------------------------
  // After the request: failure, consent cookie, cookie removal
  // ---------------------------------------------------------------------------

  /** The error description of a failed save, or None when the save went
      through: a string error is shown as is, any other error as "", and a
      success whose preferences are missing as "No preferences returned".
      An empty preferences list is a success. */
  function SaveFailure(result: MutationResult): (description: Option<string>)
    ensures result.Failed? ==> description.Some?
    ensures result.Failed? && result.error.MessageError? ==> description == Some(result.error.message)
    ensures result.Failed? && result.error.OtherError? ==> description == Some("")
    ensures result.Succeeded? ==> (description.Some? <==> result.preferences.None?)
    ensures result.Succeeded? && result.preferences.None? ==> description == Some("No preferences returned")
  {
    match result
    case Failed(error) =>
      Some(match error case MessageError(message) => message case OtherError => "")
    case Succeeded(preferences) =>
      if preferences.None? then Some("No preferences returned") else None
  }

  /** `privacy_notice_history?.notice_key || ""` */
  function NoticeKey(saved: SavedPreference): string {
    OrEmpty(saved.noticeKey)
  }

  /** The consent cookie: `new Map(entries)` over the saved preferences, keyed
      by notice key, so a later entry overwrites an earlier one with the same key. */
  function CookieConsent(saved: seq<SavedPreference>, toBoolean: Option<UserConsentPreference> -> bool)
    : (consent: map<string, bool>)
    ensures consent.Keys == set i | 0 <= i < |saved| :: NoticeKey(saved[i])
  {
    if saved == [] then map[]
    else
      var init := saved[..|saved| - 1];
      var last := saved[|saved| - 1];
      var consent := CookieConsent(init, toBoolean)[NoticeKey(last) := toBoolean(Some(last.preference))];
      assert forall i :: 0 <= i < |init| ==> init[i] == saved[i];
      consent
  }

  /** Each notice key maps to the boolean of the LAST saved preference that has it. */
  lemma {:induction false} CookieConsentLastWins(saved: seq<SavedPreference>,
                                                 toBoolean: Option<UserConsentPreference> -> bool, i: nat)
    requires i < |saved|
    requires forall j :: i < j < |saved| ==> NoticeKey(saved[j]) != NoticeKey(saved[i])
    ensures NoticeKey(saved[i]) in CookieConsent(saved, toBoolean)
    ensures CookieConsent(saved, toBoolean)[NoticeKey(saved[i])] == toBoolean(Some(saved[i].preference))
  {
    if i < |saved| - 1 {
      var init := saved[..|saved| - 1];
      assert init[i] == saved[i];
      CookieConsentLastWins(init, toBoolean, i);
    }
  }

  /** Whether step 3 of the save removes the entry's notice cookies: the
      draft's value (not the sent one) is OPT_OUT and a notice was found. */
  predicate RemovesCookies(np: NoticePreference) {
    np.preference == Some(OptOut) && np.notice.Some?
  }

  /** The cookie groups step 3 removes, in entry order. */
  function RemovalsFor(nps: seq<NoticePreference>): (removals: seq<seq<Cookie>>)
    ensures |removals| <= |nps|
  {
    if nps == [] then []
    else
      var last := nps[|nps| - 1];
      RemovalsFor(nps[..|nps| - 1]) + (if RemovesCookies(last) then [last.notice.value.cookies] else [])
  }

  /** Every entry that calls for removal has its notice's cookies removed. */
  lemma {:induction false} RemovalsForComplete(nps: seq<NoticePreference>, i: nat)
    requires i < |nps| && RemovesCookies(nps[i])
    ensures nps[i].notice.value.cookies in RemovalsFor(nps)
  {
    if i < |nps| - 1 {
      assert nps[..|nps| - 1][i] == nps[i];
      RemovalsForComplete(nps[..|nps| - 1], i);
    }
  }

  /** Only entries that call for removal have cookies removed. */
  lemma {:induction false} RemovalsForSound(nps: seq<NoticePreference>, cookies: seq<Cookie>)
    requires cookies in RemovalsFor(nps)
    ensures exists i :: 0 <= i < |nps| && RemovesCookies(nps[i]) && nps[i].notice.value.cookies == cookies
  {
    var init := nps[..|nps| - 1];
    var last := nps[|nps| - 1];
    if cookies in RemovalsFor(init) {
      RemovalsForSound(init, cookies);
      var i :| 0 <= i < |init| && RemovesCookies(init[i]) && init[i].notice.value.cookies == cookies;
      assert init[i] == nps[i];
    } else {
      assert RemovesCookies(last) && last.notice.value.cookies == cookies;
    }
  }

  /** Step 3 of handleSave: walk the entries and collect, for each one whose
      draft value is OPT_OUT and whose notice is known, that notice's cookies. */
  method SelectCookieRemovals(nps: seq<NoticePreference>) returns (removals: seq<seq<Cookie>>)
    ensures removals == RemovalsFor(nps)
  {
    removals := [];
    var i := 0;
    while i < |nps|
      invariant 0 <= i <= |nps|
      invariant removals == RemovalsFor(nps[..i])
    {
      var np := nps[i];
      if np.preference == Some(OptOut) && np.notice.Some? {
        removals := removals + [np.notice.value.cookies];
      }
      assert nps[..i + 1][..i] == nps[..i];
      i := i + 1;
    }
    assert nps[..|nps|] == nps;
  }

  // ---------------------------------------------------------------------------
  // What a toggle means for the next save
  // ---------------------------------------------------------------------------

  /** A toggle reaches the server: after switching `historyId`, the save request
      carries that id, and every option for it is OPT_IN or OPT_OUT as
      toggled, or ACKNOWLEDGE when its notice is notice-only. */
  lemma {:induction false} ToggleIsSent(draft: Record, notices: seq<Notice>, servedNotices: Option<seq<ServedNotice>>,
                                        historyId: string, value: bool)
    requires WellFormed(draft)
    ensures var sent := BuildPreferences(ToggledDraft(draft, historyId, value), notices, servedNotices);
            && (exists i :: 0 <= i < |sent| && sent[i].privacyNoticeHistoryId == historyId)
            && (forall i :: 0 <= i < |sent| && sent[i].privacyNoticeHistoryId == historyId ==>
                  sent[i].preference == (if IsNoticeOnly(Find(notices, HasHistoryId(historyId))) then Acknowledge
                                         else if value then OptIn else OptOut))
  {
    var toggled := ToggledDraft(draft, historyId, value);
    var sent := BuildPreferences(toggled, notices, servedNotices);
    GetAbsent(toggled, historyId);
    var k := KeyIndex(toggled, historyId);
    assert sent[k].privacyNoticeHistoryId == historyId;
    forall i | 0 <= i < |sent| && sent[i].privacyNoticeHistoryId == historyId
      ensures sent[i].preference == (if IsNoticeOnly(Find(notices, HasHistoryId(historyId))) then Acknowledge
                                     else if value then OptIn else OptOut)
    {
      GetAt(toggled, i);
    }
  }

  /** Switching off an item whose notice is known marks its entry for cookie
      removal, so the next successful save removes that notice's cookies. */
  lemma {:induction false} ToggleOffRemovesCookies(draft: Record, notices: seq<Notice>,
                                                   servedNotices: Option<seq<ServedNotice>>, historyId: string)
    returns (i: nat)
    requires WellFormed(draft)
    requires Find(notices, HasHistoryId(historyId)).Some?
    ensures var nps := NoticePreferences(ToggledDraft(draft, historyId, false), notices, servedNotices);
            && i < |nps| && nps[i].historyKey == historyId && RemovesCookies(nps[i])
            && Find(notices, HasHistoryId(historyId)).value.cookies in RemovalsFor(nps)
  {
    var toggled := ToggledDraft(draft, historyId, false);
    GetAbsent(toggled, historyId);
    i := KeyIndex(toggled, historyId);
    GetAt(toggled, i);
    RemovalsForComplete(NoticePreferences(toggled, notices, servedNotices), i);
  }

  /** On a draft with every value defined (the initial draft and every toggle
      keep it so) the OPT_OUT fallback never fires: an option sent as OPT_OUT
      for a known notice that is not notice-only has its cookies removed, and
      a removal comes only from an entry whose notice is notice-only or that
      was sent as OPT_OUT. */
  lemma SentOptOutMatchesRemovals(draft: Record, notices: seq<Notice>, servedNotices: Option<seq<ServedNotice>>,
                                  i: nat)
    requires AllDefined(draft) && i < |draft|
    ensures var sent := BuildPreferences(draft, notices, servedNotices);
            var np := NoticePreferences(draft, notices, servedNotices)[i];
            && (sent[i].preference == OptOut && np.notice.Some? ==> np.notice.value.cookies in RemovalsFor(NoticePreferences(draft, notices, servedNotices)))
            && (RemovesCookies(np) ==> sent[i].preference == OptOut || IsNoticeOnly(np.notice))
  {
    var nps := NoticePreferences(draft, notices, servedNotices);
    if RemovesCookies(nps[i]) {
      RemovalsForComplete(nps, i);
    }
  }

  // ---------------------------------------------------------------------------
  // The page's state
  // ---------------------------------------------------------------------------

  /** The consent page: its draft, and the browser state a save writes (the
      consent part of the fides cookie, also assigned to window.Fides.consent,
      and the log of cookie groups handed to removeCookiesFromBrowser). */
  class ConsentForm {
    const experience: Option<Experience>
    const context: ConsentContext
    var draft: Record
    var consentCookie: map<string, bool>
    var removedCookies: seq<seq<Cookie>>

    ghost predicate Valid()
      reads this
    {
      WellFormed(draft) && AllDefined(draft)
    }

    /** The page opens with the initial draft built from the stored preferences. */
    constructor (serverPreferences: Record, experience: Option<Experience>, context: ConsentContext,
                 consentCookie: map<string, bool>)
      requires WellFormed(serverPreferences)
      ensures Valid()
      ensures this.experience == experience && this.context == context
      ensures draft == InitialDraft(serverPreferences, NoticesOf(experience), context)
      ensures this.consentCookie == consentCookie && removedCookies == []
    {
      var initial := InitialDraftPreferences(serverPreferences, experience, context);
      InitialDraftSpec(serverPreferences, NoticesOf(experience), context);
      this.experience := experience;
      this.context := context;
      draft := initial;
      this.consentCookie := consentCookie;
      removedCookies := [];
    }

    /** handleChange for the item with `historyId`. */
    method HandleChange(historyId: string, value: bool)
      requires Valid()
      modifies this
      ensures Valid()
      ensures draft == ToggledDraft(old(draft), historyId, value)
      ensures consentCookie == old(consentCookie) && removedCookies == old(removedCookies)
    {
      draft := ToggledDraft(draft, historyId, value);
    }

    /** handleSave: build and send the preferences; on an error or a missing
        preferences list stop with the description and touch nothing; on
        success write the consent cookie from the server's answer and remove
        the cookies of the opted-out notices. */
    method HandleSave(servedNotices: Option<seq<ServedNotice>>,
                      updatePreferences: seq<ConsentOptionCreate> -> MutationResult,
                      toBoolean: Option<UserConsentPreference> -> bool)
      returns (sent: seq<ConsentOptionCreate>, failure: Option<string>)
      requires Valid()
      modifies this
      ensures Valid() && draft == old(draft)
      ensures sent == BuildPreferences(draft, NoticesOf(experience), servedNotices)
      ensures failure == SaveFailure(updatePreferences(sent))
      ensures failure.Some? ==> consentCookie == old(consentCookie) && removedCookies == old(removedCookies)
      ensures failure.None? ==>
                && updatePreferences(sent).Succeeded? && updatePreferences(sent).preferences.Some?
                && consentCookie == CookieConsent(updatePreferences(sent).preferences.value, toBoolean)
                && removedCookies == old(removedCookies)
                                     + RemovalsFor(NoticePreferences(draft, NoticesOf(experience), servedNotices))
    {
      var notices := NoticesOf(experience);
      var noticePreferences := NoticePreferences(draft, notices, servedNotices);
      sent := BuildPreferences(draft, notices, servedNotices);
      var result := updatePreferences(sent);
      failure := SaveFailure(result);
      if failure.Some? {
        return;
      }
      consentCookie := CookieConsent(result.preferences.value, toBoolean);
      var removals := SelectCookieRemovals(noticePreferences);
      removedCookies := removedCookies + removals;
    }
  }
}
