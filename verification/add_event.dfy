/** `AddEventPage`: the form that records an attended concert through the
    `add_attended_concert` procedure. */
module AddEvent {
  import opened Results

  datatype Form = Form(eventDate: string, artistName: string, eventName: string, venueName: string, notes: string)

  /** The procedure's parameters (`p_event_date`, `p_artist_name`,
      `p_venue_name`, `p_event_name`, `p_notes`). */
  datatype ConcertParams = ConcertParams(
    pEventDate: string, pArtistName: string, pVenueName: string, pEventName: string, pNotes: string)

  /** The locally produced notices; a store error's own message is shown
      only when the error is an `Error` instance, which is not modelled. */
  datatype Notice = RequiredFieldsMissing | Registered

  const ProcedureName: string := "add_attended_concert"
  const RequiredMessage: string := "開催日、アーティスト名、会場名は必須です。"
  const RegisteredMessage: string := "ライブ情報を登録しました！"

  function NoticeText(n: Notice): string
  {
    match n
    case RequiredFieldsMissing => RequiredMessage
    case Registered => RegisteredMessage
  }

  /** What a submit did. */
  datatype Submitted = Submitted(
    call: Option<ConcertParams>, notice: Option<Notice>, navigateTo: Option<string>, loading: bool)

  /** The required fields are the date, the artist and the venue; an empty
      string is missing, whitespace is not. */
  predicate RequiredPresent(f: Form)
  {
    f.eventDate != "" && f.artistName != "" && f.venueName != ""
  }

  function ParamsOf(f: Form): ConcertParams
  {
    ConcertParams(f.eventDate, f.artistName, f.venueName, f.eventName, f.notes)
  }

  function ProfilePath(userId: string): string
  {
    "/profile/" + userId
  }

  /** `handleSubmit` given the procedure's answer. */
  function HandleSubmit(f: Form, userId: string, loading: bool, answer: Outcome<Unit>): (r: Submitted)
    ensures !RequiredPresent(f) ==> r == Submitted(None, Some(RequiredFieldsMissing), None, loading)
    ensures RequiredPresent(f) ==>
              && r.call == Some(ConcertParams(f.eventDate, f.artistName, f.venueName, f.eventName, f.notes))
              && !r.loading
              && (answer.Ok? <==> r.navigateTo.Some?)
              && (answer.Ok? ==> r.navigateTo == Some(ProfilePath(userId)) && r.notice == Some(Registered))
              && (answer.Err? ==> r.notice == None)
  {
    if !RequiredPresent(f) then Submitted(None, Some(RequiredFieldsMissing), None, loading)
    else
      match answer
      case Ok(_) => Submitted(Some(ParamsOf(f)), Some(Registered), Some(ProfilePath(userId)), false)
      case Err(_) => Submitted(Some(ParamsOf(f)), None, None, false)
  }

  /** The procedure is called exactly when the required fields are all
      present, so it never receives an empty date, artist or venue. */
  lemma CallOnlyWithRequired(f: Form, userId: string, loading: bool, answer: Outcome<Unit>)
    ensures var r := HandleSubmit(f, userId, loading, answer);
            && (r.call.Some? <==> RequiredPresent(f))
            && (r.call.Some? ==>
                  r.call.value.pEventDate != "" && r.call.value.pArtistName != "" && r.call.value.pVenueName != "")
  {
  }

  /** The check does not trim: whitespace-only artist and venue pass, and
      the optional fields may be empty. */
  lemma WhitespacePasses(userId: string, answer: Outcome<Unit>)
    ensures HandleSubmit(Form("2024-05-01", " ", "", " ", ""), userId, false, answer).call
            == Some(ConcertParams("2024-05-01", " ", " ", "", ""))
  {
  }
}
