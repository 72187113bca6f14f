# Notice-driven consent page: a Dafny model

This project models the decision logic of the fides privacy center's
notice-driven consent page (`NoticeDrivenConsent.tsx`). A visitor sees one
consent item per privacy notice of the current privacy experience, switches
items on and off, and saves. The logic modelled here:

- **Default resolution** (`resolveConsentValue`): a notice that carries the GPC
  flag resolves to OPT_OUT when the browser's Global Privacy Control signal is
  exactly `true`. Any other notice resolves to its own default preference.
- **Initial draft** (`initialDraftPreferences`): the stored preferences, keyed by
  privacy-notice-history id, copied with every empty value replaced by the
  resolved default of the first notice with that id, or by OPT_OUT when no
  notice has it.
- **Items** (`items`): one item per notice, in notice order. An item is disabled
  exactly when its notice is notice-only.
- **Toggle** (`handleChange`): sets one history id to OPT_IN or OPT_OUT.
- **Save** (`handleSave`): one `ConsentOptionCreate` per draft entry, in draft
  order. A notice-only notice is always sent as ACKNOWLEDGE, and an undefined
  value is sent as OPT_OUT. On an error, or on a success without a preferences
  list, the page stops. Otherwise it writes the consent cookie (notice key to
  boolean) and removes the cookies of every notice whose draft value is OPT_OUT.

Modules:

- `ConsentTypes` (`consent_types.dfy`): the API enums and records the page reads.
- `PreferenceRecord` (`preference_record.dfy`): the page's history-id-to-preference
  object, modelled as an ordered list of entries with distinct keys. This keeps
  JavaScript's behaviour: insertion order, `undefined` for a missing key, and an
  assignment that keeps an existing key's slot or appends a new key.
- `Lookup` (`lookup.dfy`): `Array.prototype.find` and `Array.prototype.filter`,
  with the lemma that `filter(p)[0]` and `find(p)` agree.
- `NoticeDrivenConsent` (`notice_driven_consent.dfy`): the page's functions, the
  two loops (filling the initial draft, collecting cookies to remove), and a
  class `ConsentForm` for the state that `handleChange` and `handleSave` update.

Calls into code that is not part of this model are parameters:
- `toBoolean` stands for fides-js `transformUserPreferenceToBoolean`.
- `gpcStatusOf` stands for fides-js `getGpcStatusFromNotice`.
- `updatePreferences` stands for the privacy-preferences mutation.

## Model

| member | source | states |
|---|---|---|
| `NoticeDrivenConsent.ResolveConsentValue` | clients/privacy-center/components/consent/NoticeDrivenConsent.tsx:42-52 | With the GPC flag and GPC exactly `true` the result is OPT_OUT. Otherwise it is the notice's default. GPC never produces OPT_IN. |
| `NoticeDrivenConsent.DefaultPreference` | clients/privacy-center/components/consent/NoticeDrivenConsent.tsx:78-84 | The default computed through `filter(...)[0]` equals the resolved default of the first notice with the history id (as `Find` characterises it), or OPT_OUT when none matches. |
| `Lookup.Find` | clients/privacy-center/components/consent/NoticeDrivenConsent.tsx:170-175 | `find` returns undefined exactly when no element matches. Otherwise it returns a matching element with no match before it. |
| `Lookup.Filter` | clients/privacy-center/components/consent/NoticeDrivenConsent.tsx:79-81 | `filter` keeps every element of the input that satisfies the predicate and nothing else. |
| `Lookup.FilterAppend` | clients/privacy-center/components/consent/NoticeDrivenConsent.tsx:79-81 | Filtering `a + b` gives the matches of `a` followed by those of `b`, so `filter` keeps the input's order. |
| `Lookup.FilterHeadIsFind` | clients/privacy-center/components/consent/NoticeDrivenConsent.tsx:79-81 | `filter(p)` is empty exactly when `find(p)` is undefined. Otherwise `filter(p)[0]` is what `find(p)` returns. |
| `NoticeDrivenConsent.InitialDraft` | clients/privacy-center/components/consent/NoticeDrivenConsent.tsx:75-88 | The filled draft keeps each stored key in its slot and holds a defined value for each. |
| `NoticeDrivenConsent.InitialDraftSpec` | clients/privacy-center/components/consent/NoticeDrivenConsent.tsx:74-89 | The initial draft has the stored keys in the stored order and no duplicate key. Every defined stored value is kept, every empty one reads as its default, and no value is left undefined. |
| `NoticeDrivenConsent.InitialDraftPreferences` | clients/privacy-center/components/consent/NoticeDrivenConsent.tsx:75-88 | The copy-then-overwrite loop produces exactly the entry-by-entry initial draft. |
| `NoticeDrivenConsent.Items` | clients/privacy-center/components/consent/NoticeDrivenConsent.tsx:122-152 | No items without an experience or notices. Otherwise there is one item per notice, in order, carrying the notice's ids, the name and description (or ""), and the draft's value for its history id. `disabled` holds exactly for notice-only notices. |
| `PreferenceRecord.Get` | clients/privacy-center/components/consent/NoticeDrivenConsent.tsx:132 | `r[key]`: a defined value read is one stored under that key. |
| `PreferenceRecord.Set` | clients/privacy-center/components/consent/NoticeDrivenConsent.tsx:262-265 | `{ ...r, [key]: value }`: the result holds the new entry and grows by at most one entry. |
| `PreferenceRecord.GetAbsent` | clients/privacy-center/components/consent/NoticeDrivenConsent.tsx:132 | Reading a key the record lacks gives undefined. |
| `PreferenceRecord.SetAbsent` | clients/privacy-center/components/consent/NoticeDrivenConsent.tsx:262-265 | Assigning a key the record lacks appends it as the last entry. |
| `PreferenceRecord.GetAt` | clients/privacy-center/components/consent/NoticeDrivenConsent.tsx:132 | In a record with distinct keys, reading the key at a position gives that position's value. |
| `PreferenceRecord.SetAt` | clients/privacy-center/components/consent/NoticeDrivenConsent.tsx:85 | Overwriting the key at a position (its first occurrence) replaces only that entry, in place. |
| `PreferenceRecord.SetSpec` | clients/privacy-center/components/consent/NoticeDrivenConsent.tsx:262-265 | After the spread-assignment the key reads as the new value and every other key reads as before. The key order is unchanged, or the new key goes last, and keys stay distinct. |
| `PreferenceRecord.SetDefined` | clients/privacy-center/components/consent/NoticeDrivenConsent.tsx:262-265 | An assignment never makes a value undefined. |
| `NoticeDrivenConsent.ToggledDraft` | clients/privacy-center/components/consent/NoticeDrivenConsent.tsx:258-265 | A toggle sets the id to OPT_IN (on) or OPT_OUT (off) and leaves every other id's value and the key order alone. A fully defined draft stays fully defined. |
| `NoticeDrivenConsent.NoticePreferences` | clients/privacy-center/components/consent/NoticeDrivenConsent.tsx:168-178 | One record per draft entry, in draft order, holding the first notice and the first served-notice record with that history id. |
| `NoticeDrivenConsent.ConsentOption` | clients/privacy-center/components/consent/NoticeDrivenConsent.tsx:180-195 | Notice-only is sent as ACKNOWLEDGE. Anything else is sent with the draft value, or OPT_OUT when that is undefined. The key and the served-notice id are carried over. |
| `NoticeDrivenConsent.BuildPreferences` | clients/privacy-center/components/consent/NoticeDrivenConsent.tsx:168-195 | One option per draft entry, in draft order, each carrying its draft key. The preference rule is as above. The served-notice id is that of the first served-notice record with the key, or none when there is none. No history id is sent twice. |
| `NoticeDrivenConsent.SaveFailure` | clients/privacy-center/components/consent/NoticeDrivenConsent.tsx:211-223 | An error stops the save with its message if it is a string, else with "". A success with no preferences list stops it with "No preferences returned". An empty list goes through. |
| `NoticeDrivenConsent.CookieConsent` | clients/privacy-center/components/consent/NoticeDrivenConsent.tsx:226-232 | The cookie's keys are exactly the notice keys of the saved preferences, with "" when there is none. |
| `NoticeDrivenConsent.CookieConsentLastWins` | clients/privacy-center/components/consent/NoticeDrivenConsent.tsx:226-232 | Each notice key maps to the boolean of the last saved preference with that key. |
| `NoticeDrivenConsent.RemovalsFor` | clients/privacy-center/components/consent/NoticeDrivenConsent.tsx:242-248 | At most one cookie group is removed per draft entry. |
| `NoticeDrivenConsent.RemovalsForComplete` | clients/privacy-center/components/consent/NoticeDrivenConsent.tsx:242-248 | Every entry whose draft value is OPT_OUT and whose notice is known has that notice's cookies removed. |
| `NoticeDrivenConsent.RemovalsForSound` | clients/privacy-center/components/consent/NoticeDrivenConsent.tsx:242-248 | Every removed cookie group belongs to such an entry. |
| `NoticeDrivenConsent.SelectCookieRemovals` | clients/privacy-center/components/consent/NoticeDrivenConsent.tsx:242-249 | The removal loop collects exactly the cookie groups of those entries, in entry order. |
| `NoticeDrivenConsent.ToggleIsSent` | clients/privacy-center/components/consent/NoticeDrivenConsent.tsx:258-265 | After a toggle, the next save sends the id (once, by `BuildPreferences`), as ACKNOWLEDGE if its notice is notice-only and otherwise as OPT_IN or OPT_OUT as toggled. |
| `NoticeDrivenConsent.ToggleOffRemovesCookies` | clients/privacy-center/components/consent/NoticeDrivenConsent.tsx:242-248 | Toggling off an item whose notice is known marks its entry for removal, so the next successful save removes that notice's cookies. |
| `NoticeDrivenConsent.SentOptOutMatchesRemovals` | clients/privacy-center/components/consent/NoticeDrivenConsent.tsx:242-248 | On a fully defined draft, an option sent as OPT_OUT with a known notice has its cookies removed. A removal comes only from an entry sent as OPT_OUT or from a notice-only entry. |
| `NoticeDrivenConsent.ConsentForm.constructor` | clients/privacy-center/components/consent/NoticeDrivenConsent.tsx:74-96 | The page starts from the initial draft, which is well formed and fully defined, with nothing removed yet. |
| `NoticeDrivenConsent.ConsentForm.HandleChange` | clients/privacy-center/components/consent/NoticeDrivenConsent.tsx:258-265 | The draft becomes the toggled draft. The cookie state is untouched and the draft invariant is kept. |
| `NoticeDrivenConsent.ConsentForm.HandleSave` | clients/privacy-center/components/consent/NoticeDrivenConsent.tsx:164-251 | The save sends the built preferences. On failure it changes nothing. On success it replaces the consent cookie with the server's answer and appends the selected cookie removals. The draft is unchanged. |

## Left out

- React state and effects, rendering, toasts, routing, and `useLocalStorage` are not modelled. Toasts appear only as the failure description `SaveFailure` returns. The draft's reset to the initial draft when the stored preferences change (lines 94-96) is modelled only as the constructor.
- The notices-served mutation (lines 98-120) is not modelled. Its answer is the `servedNotices` parameter of `HandleSave`.
- The save request's fields other than `preferences` are not modelled: browser identity, user geography, experience id, method BUTTON and verification code. Browser identity inspection is left out for the same reason: it is I/O.
- `window.Fides.consent` and `saveFidesCookie` are modelled as one field, `consentCookie`. The rest of the fides cookie (`getOrMakeFidesCookie`) is not modelled.
- `removeCookiesFromBrowser` is modelled as a log of the cookie groups passed to it. Its effect on the browser is not modelled.
- `CookieConsent`: the key order of the cookie object (first-insertion order of the JavaScript `Map`) is not modelled. Its keys and values are.
- `PreferenceRecord`: JavaScript lists integer-like keys before other keys, whatever the insertion order. This is not modelled, because history ids are not integer-like.
- `transformUserPreferenceToBoolean` and `getGpcStatusFromNotice` (fides-js) are not part of this model. They are parameters, and nothing is assumed about them.
- The server side of saving preferences is not part of this model: verification codes and their attempt limit, the current-preference upsert, and privacy-request dispatch.
