/**
 Properties that relate several requests, or the gate to the handlers:
 rejections change nothing, create-then-retrieve and upload-then-retrieve
 round trips, the photo update's frame, and the record-store invariant that
 every record carries its own key as `EmployeeID`.
 */
module RouteProperties {
  import opened Optional
  import opened Schema
  import opened Stores
  import opened Gate
  import opened Routes

  /** Every stored record names its own key in `EmployeeID`. */
  predicate RecordsKeyedById(st: State) {
    forall id :: id in st.records ==> EmployeeIdField in st.records[id] && st.records[id][EmployeeIdField] == Int(id)
  }

  /** A header that is absent or lacks the `Bearer ` prefix is refused before any handler runs. */
  lemma MalformedHeaderRejected(rule: IdRule, req: Request, st: State)
    requires req.authorization.None? || !StartsWith(req.authorization.value, BearerPrefix)
    ensures Handle(rule, req, st) == Step(Response(401, Message(MissingTokenMessage)), st)
  {
  }

  /** A well-formed header whose token the credentials table lacks is refused, changing nothing. */
  lemma UnknownTokenRejected(rule: IdRule, req: Request, st: State, token: string, rest: string)
    requires ' ' !in token && (rest == [] || rest[0] == ' ')
    requires req.authorization == Some(BearerPrefix + token + rest)
    requires !TokenAccepted(st, token)
    ensures Handle(rule, req, st) == Step(Response(401, Message(InvalidTokenMessage)), st)
  {
    TokenIsSecondWord(token, rest);
  }

  /** A known token lets the request reach its handler: the gate adds nothing else. */
  lemma KnownTokenReachesHandler(rule: IdRule, req: Request, st: State, token: string, rest: string)
    requires ' ' !in token && (rest == [] || rest[0] == ' ')
    requires req.authorization == Some(BearerPrefix + token + rest)
    requires TokenAccepted(st, token)
    ensures Handle(rule, req, st).response.status != 401
  {
    TokenIsSecondWord(token, rest);
  }

  /**
   Storage errors never reach the client: without storage credentials the
   gate's own scan fails first, so no request is answered with 500.
   */
  lemma NoServerErrorPastTheGate(rule: IdRule, req: Request, st: State)
    ensures Handle(rule, req, st).response.status != 500
  {
  }

  /** Retrieval never writes. */
  lemma RetrievalIsReadOnly(rule: IdRule, req: Request, st: State)
    requires req.verb == Get
    ensures Handle(rule, req, st).state == st
  {
  }

  /**
   A successful create stores the ID-corrected body under the path ID, and a
   retrieve with the same credentials returns it: the submitted names, date
   and country come back unchanged.
   */
  lemma CreateThenRetrieve(rule: IdRule, req: Request, st: State)
    requires req.verb == Post && req.endpoint == ProfileEndpoint
    requires Handle(rule, req, st).response.status == 201
    ensures var st' := Handle(rule, req, st).state;
      var get := Handle(rule, req.(verb := Get), st');
      && get.response == Response(200, Record(WithPathId(req.json, req.employeeId)))
      && get.response.body.item.Keys == DeclaredFields
      && (forall f :: f in DeclaredFields && f != EmployeeIdField ==>
            f in req.json && get.response.body.item[f] == req.json[f])
      && get.response.body.item[EmployeeIdField] == Int(req.employeeId)
  {
    var st' := Handle(rule, req, st).state;
    assert Authorize(req.authorization, st) == Pass;
    assert st'.access == st.access && st'.credentials == st.credentials;
    assert Authorize(req.authorization, st') == Pass;
    var item := WithPathId(req.json, req.employeeId);
    assert Conforms(rule, item);
  }

  /** A rejected create answers 400 with the field messages and writes nothing. */
  lemma InvalidCreateWritesNothing(rule: IdRule, req: Request, st: State)
    requires req.verb == Post && req.endpoint == ProfileEndpoint
    requires Authorize(req.authorization, st) == Pass
    requires !Conforms(rule, WithPathId(req.json, req.employeeId))
    ensures Handle(rule, req, st).response.status == 400
    ensures Handle(rule, req, st).response.body.Invalid?
    ensures Handle(rule, req, st).response.body.errors.Keys != {}
    ensures Handle(rule, req, st).state == st
  {
  }

  /** The path ID always passes the `EmployeeID` check as written: it is an integer, and no integer fails. */
  lemma PathIdNeverRejectedAsWritten(req: Request, st: State)
    requires req.verb == Post && req.endpoint == ProfileEndpoint
    requires Authorize(req.authorization, st) == Pass
    ensures Handle(AsWritten, req, st).response.status == 400 ==>
      EmployeeIdField !in Handle(AsWritten, req, st).response.body.errors
  {
    var item := WithPathId(req.json, req.employeeId);
    assert Problem(AsWritten, item, EmployeeIdField).None?;
  }

  /** Retrieving a profile that was never stored answers 404. */
  lemma UnknownProfileNotFound(rule: IdRule, req: Request, st: State)
    requires req.verb == Get && req.endpoint == ProfileEndpoint
    requires Authorize(req.authorization, st) == Pass
    requires req.employeeId !in st.records
    ensures Handle(rule, req, st) == Step(Response(404, Error(EmployeeNotFoundMessage)), st)
  {
  }

  /** Retrieving a photo that was never uploaded answers 404. */
  lemma UnknownPhotoNotFound(rule: IdRule, req: Request, st: State)
    requires req.verb == Get && req.endpoint == PhotoEndpoint
    requires Authorize(req.authorization, st) == Pass
    requires PhotoKey(req.employeeId) !in st.objects
    ensures Handle(rule, req, st) == Step(Response(404, Error(PhotoNotFoundMessage)), st)
  {
  }

  /** An upload without a usable `photo` part answers 400 and touches no store. */
  lemma UploadWithoutFileWritesNothing(rule: IdRule, req: Request, st: State)
    requires req.verb == Post && req.endpoint == PhotoEndpoint
    requires Authorize(req.authorization, st) == Pass
    requires PhotoPart !in req.files || req.files[PhotoPart].filename == ""
    ensures Handle(rule, req, st).response.status == 400
    ensures Handle(rule, req, st).response.body.Error?
    ensures Handle(rule, req, st).state == st
  {
  }

  /**
   An upload followed by a retrieve returns the very bytes uploaded, and the
   profile then carries a non-empty `PhotoURL`.
   */
  lemma UploadThenRetrieve(rule: IdRule, req: Request, st: State)
    requires req.verb == Post && req.endpoint == PhotoEndpoint
    requires Handle(rule, req, st).response.status == 201
    ensures var st' := Handle(rule, req, st).state;
      && Handle(rule, req.(verb := Get), st').response == Response(200, Image(req.files[PhotoPart].content))
      && var profile := Handle(rule, req.(verb := Get, endpoint := ProfileEndpoint), st').response;
         && profile.status == 200
         && PhotoUrlField in profile.body.item
         && profile.body.item[PhotoUrlField] == Str(PhotoUrl(req.employeeId))
         && |profile.body.item[PhotoUrlField].s| > 0
  {
    var st' := Handle(rule, req, st).state;
    assert Authorize(req.authorization, st) == Pass;
    assert st'.access == st.access && st'.credentials == st.credentials;
    assert Authorize(req.authorization, st') == Pass;
  }

  /**
   A successful upload changes only the employee's photo object and the
   `PhotoURL` of their record: every other field, every other record and
   every other employee's photo are left as they were.
   */
  lemma UploadFrame(rule: IdRule, req: Request, st: State)
    requires req.verb == Post && req.endpoint == PhotoEndpoint
    requires Handle(rule, req, st).response.status == 201
    ensures var st' := Handle(rule, req, st).state;
      var id := req.employeeId;
      && st'.access == st.access && st'.credentials == st.credentials
      && (forall other :: other in st.records && other != id ==> other in st'.records && st'.records[other] == st.records[other])
      && st'.records.Keys == st.records.Keys + {id}
      && (id in st.records ==>
            forall k :: k in st.records[id] && k != PhotoUrlField ==> k in st'.records[id] && st'.records[id][k] == st.records[id][k])
      && (forall key :: key in st.objects && key != PhotoKey(id) ==> key in st'.objects && st'.objects[key] == st.objects[key])
      && (forall other: nat :: other != id && PhotoKey(other) in st.objects ==>
            st'.objects[PhotoKey(other)] == st.objects[PhotoKey(other)])
  {
    forall other: nat | other != req.employeeId
      ensures PhotoKey(other) != PhotoKey(req.employeeId)
    {
      PhotoKeyInjective(other, req.employeeId);
    }
  }

  /** Every request keeps each stored record's `EmployeeID` equal to its key. */
  lemma HandlePreservesRecordKeys(rule: IdRule, req: Request, st: State)
    requires RecordsKeyedById(st)
    ensures RecordsKeyedById(Handle(rule, req, st).state)
  {
  }

}
