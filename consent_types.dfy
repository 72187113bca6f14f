/** Values the privacy-center consent page works with: the API enums, the
    privacy notices of an experience, the served-notice records and the
    shapes sent to and returned by the privacy-preferences endpoint. */
module ConsentTypes {

  datatype Option<+T> = None | Some(value: T)

  /** UserConsentPreference of the API types ("opt_in", "opt_out", "acknowledge").
      Every value is a non-empty string, so in the page's JavaScript a preference
      is falsy exactly when it is undefined: that is `None` here. */
  datatype UserConsentPreference = OptIn | OptOut | Acknowledge

  /** ConsentMechanism of a notice ("opt_in", "opt_out", "notice_only"). */
  datatype ConsentMechanism = OptInMechanism | OptOutMechanism | NoticeOnly

  /** The part of fides-js' ConsentContext this page reads:
      `globalPrivacyControl` is `true`, `false` or undefined. */
  datatype ConsentContext = ConsentContext(globalPrivacyControl: Option<bool>)

  /** A cookie a notice declares (fides' CookieSchema). */
  datatype Cookie = Cookie(name: string, path: Option<string>, domain: Option<string>)

  /** PrivacyNoticeResponseWithUserPreferences, restricted to the fields the page reads. */
  datatype Notice = Notice(
    id: string,
    privacyNoticeHistoryId: string,
    name: Option<string>,
    description: Option<string>,
    hasGpcFlag: bool,
    defaultPreference: UserConsentPreference,
    consentMechanism: ConsentMechanism,
    cookies: seq<Cookie>)

  /** The privacy experience: its notices may be missing altogether. */
  datatype Experience = Experience(id: string, privacyNotices: Option<seq<Notice>>)

  /** A record returned by the notices-served mutation: `noticeHistoryId` is
      `privacy_notice_history?.id`, absent when the record carries no history. */
  datatype ServedNotice = ServedNotice(servedNoticeHistoryId: string, noticeHistoryId: Option<string>)

  /** ConsentOptionCreate: one preference of the submitted payload. */
  datatype ConsentOptionCreate = ConsentOptionCreate(
    privacyNoticeHistoryId: string,
    preference: UserConsentPreference,
    servedNoticeHistoryId: Option<string>)

  /** One preference in the endpoint's success response: `noticeKey` is
      `privacy_notice_history?.notice_key`. */
  datatype SavedPreference = SavedPreference(noticeKey: Option<string>, preference: UserConsentPreference)

  /** The error of a failed mutation: a message when it is a string, anything else otherwise. */
  datatype MutationError = MessageError(message: string) | OtherError

  /** What the privacy-preferences mutation resolves to: an error, or data whose
      `preferences` list may be missing. */
  datatype MutationResult =
    | Failed(error: MutationError)
    | Succeeded(preferences: Option<seq<SavedPreference>>)
}
