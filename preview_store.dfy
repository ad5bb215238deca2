/**
 * The `preview_data` session map: an upload stores the unified records
 * under a session id for review, and confirming forwards them to the
 * webhook and drops the session only when forwarding succeeds.
 */
module PreviewStore {
  import opened Wrappers
  import opened Json
  import opened Auth
  import opened Sheets
  import opened Kpis
  import opened UploadForm
  import opened Unifier
  import opened Webhook

  /** One stored preview: the records, the registration date, the omitted KPIs and the uploader. */
  datatype Session = Session(registros: seq<Record>, fechaRegistro: string, kpisOmitidos: seq<Kpi>, digitador: User)

  /** The files the upload keeps: every uploaded KPI that is not omitted. */
  function Kept(uploads: map<Kpi, Upload>, omitted: seq<Kpi>): map<Kpi, Upload>
  {
    map k | k in uploads && k !in omitted :: uploads[k]
  }

  /** The uploader recorded for a confirmation: the session's, else the confirming admin. */
  function Digitador(s: Session, admin: User): (r: User)
    ensures s.digitador != map[] ==> r == s.digitador
    ensures s.digitador == map[] ==> r == admin
  {
    if s.digitador != map[] then s.digitador else admin
  }

  class Store {
    var previewData: map<string, Session>

    constructor()
      ensures previewData == map[]
    {
      previewData := map[];
    }

    /**
     * `upload_files`: after the admin check, the omitted list and the kept
     * files are unified into records, which are stored under `sessionId`
     * (derived from the clock in the service). The reply is the preview path.
     */
    method UploadFiles(authorization: Option<string>, validate: string -> Result<User>, fechaRegistro: string,
                       uploads: map<Kpi, Upload>, flags: map<Kpi, string>, sessionId: string)
      returns (r: Result<string>)
      modifies this
      ensures Authorize(authorization, validate).Err? ==>
        r == Err(Authorize(authorization, validate).error) && previewData == old(previewData)
      ensures Authorize(authorization, validate).Ok? ==>
        && r == Ok("/preview/" + sessionId)
        && previewData.Keys == old(previewData).Keys + {sessionId}
        && (forall id :: id in old(previewData) && id != sessionId ==> previewData[id] == old(previewData)[id])
        && previewData[sessionId].fechaRegistro == fechaRegistro
        && previewData[sessionId].kpisOmitidos == Omitted(flags)
        && previewData[sessionId].digitador == Authorize(authorization, validate).value
        && IsUnified(Kept(uploads, Omitted(flags)), Omitted(flags), previewData[sessionId].registros)
    {
      var adminUser := Authorize(authorization, validate);
      if adminUser.Err? {
        return Err(adminUser.error);
      }
      var kpisOmitidos := OmittedList(flags);
      var archivosData := KeptFiles(uploads, kpisOmitidos);
      assert archivosData == Kept(uploads, kpisOmitidos);
      var registros := Unify(archivosData, kpisOmitidos);
      previewData := previewData[sessionId := Session(registros, fechaRegistro, kpisOmitidos, adminUser.value)];
      r := Ok("/preview/" + sessionId);
    }

    /**
     * `confirm_insertion`: after the admin check, an unknown session gives
     * 404; otherwise the session's records are sent to the webhook (`post`),
     * and only a successful send removes the session (200); a failed send
     * gives 500 and keeps it.
     */
    method Confirm(sessionId: string, authorization: Option<string>, validate: string -> Result<User>,
                   post: Payload -> PostOutcome)
      returns (status: int)
      modifies this
      ensures Authorize(authorization, validate).Err? ==>
        status == Authorize(authorization, validate).error.status && previewData == old(previewData)
      ensures Authorize(authorization, validate).Ok? && sessionId !in old(previewData) ==>
        status == 404 && previewData == old(previewData)
      ensures Authorize(authorization, validate).Ok? && sessionId in old(previewData) ==>
        var s := old(previewData)[sessionId];
        var sent := SendToWebhook(s.registros, s.fechaRegistro,
                                  Some(Digitador(s, Authorize(authorization, validate).value)), post);
        && (sent.Sent? ==> status == 200 && previewData == old(previewData) - {sessionId})
        && (sent.NotSent? ==> status == 500 && previewData == old(previewData))
    {
      var adminUser := Authorize(authorization, validate);
      if adminUser.Err? {
        return adminUser.error.status;
      }
      if sessionId !in previewData {
        return 404;
      }
      var data := previewData[sessionId];
      var digitador := if data.digitador != map[] then data.digitador else adminUser.value;
      var result := SendToWebhook(data.registros, data.fechaRegistro, Some(digitador), post);
      if result.Sent? {
        previewData := previewData - {sessionId};
        return 200;
      }
      return 500;
    }
  }

  /** A confirmation that succeeds removes exactly the confirmed session. */
  method ConfirmRemovesOnlyThatSession(store: Store, sessionId: string, other: string,
                                       authorization: Option<string>, validate: string -> Result<User>,
                                       post: Payload -> PostOutcome)
    requires other != sessionId && other in store.previewData
    modifies store
    ensures other in store.previewData && store.previewData[other] == old(store.previewData[other])
  {
    var status := store.Confirm(sessionId, authorization, validate, post);
  }
}
