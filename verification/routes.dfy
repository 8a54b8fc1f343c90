/**
 The `/<int:employee_id>/profile` and `/<int:employee_id>/photo` endpoints of
 employees/routes.py as transitions `(request, state) -> (response, state')`,
 each behind the token gate.
 */
module Routes {
  import opened Optional
  import opened Schema
  import opened Stores
  import opened Gate

  datatype Method = Get | Post

  datatype Endpoint = ProfileEndpoint | PhotoEndpoint

  /** A multipart file part: its filename and its content. */
  datatype FilePart = FilePart(filename: string, content: seq<byte>)

  /** An HTTP request, its JSON body already parsed; Flask's `<int:...>` converter makes the ID a `nat`. */
  datatype Request = Request(
    verb: Method,
    endpoint: Endpoint,
    employeeId: nat,
    authorization: Option<string>,
    json: Item,
    files: map<string, FilePart>)

  /** Response bodies: `{'message': ...}`, `{'error': ...}`, validation messages, a record, or image bytes. */
  datatype Body =
    | Message(text: string)
    | Error(text: string)
    | Invalid(errors: Errors)
    | Record(item: Item)
    | Image(bytes: seq<byte>)

  datatype Response = Response(status: int, body: Body)

  datatype Step = Step(response: Response, state: State)

  const PhotoPart := "photo"
  const ProfileCreatedMessage := "Profile created successfully"
  const EmployeeNotFoundMessage := "Employee not found"
  const NoFilePartMessage := "No file part"
  const NoSelectedFileMessage := "No selected file"
  const PhotoUploadedMessage := "Photo uploaded and profile updated successfully"
  const PhotoNotFoundMessage := "Photo not found"

  /** The body the create handler validates and stores: the path ID overrides the body's. */
  function WithPathId(data: Item, id: nat): (d: Item)
    ensures EmployeeIdField in d && d[EmployeeIdField] == Int(id)
    ensures forall k :: k in data && k != EmployeeIdField ==> k in d && d[k] == data[k]
    ensures d.Keys == data.Keys + {EmployeeIdField}
  {
    data[EmployeeIdField := Int(id)]
  }

  /** Profile POST: validate the ID-corrected body and store it whole. */
  function CreateProfile(rule: IdRule, id: nat, data: Item, st: State): (s: Step)
    ensures s.response.status == 201 ==> s.state == st.(records := st.records[id := WithPathId(data, id)])
    ensures s.response.status == 201 <==> Load(rule, WithPathId(data, id)).Loaded? && st.access.Granted?
    ensures s.response.status == 400 <==> Load(rule, WithPathId(data, id)).Rejected?
    ensures s.response.status == 400 ==> s.response.body == Invalid(Load(rule, WithPathId(data, id)).errors)
    ensures s.response.status == 201 ==> s.response.body == Message(ProfileCreatedMessage)
    ensures Load(rule, WithPathId(data, id)).Loaded? && st.access.Denied? ==>
      s.response == Response(500, Error(st.access.reason))
    ensures s.response.status != 201 ==> s.state == st
  {
    var item := WithPathId(data, id);
    match Load(rule, item)
    case Rejected(errors) => Step(Response(400, Invalid(errors)), st)
    case Loaded(_) =>
      if st.access.Denied? then Step(Response(500, Error(st.access.reason)), st)
      else Step(Response(201, Message(ProfileCreatedMessage)), st.(records := st.records[id := item]))
  }

  /** Profile GET: the stored record, or 404. */
  function GetProfile(id: nat, st: State): (s: Step)
    ensures s.state == st
    ensures s.response.status == 200 <==> st.access.Granted? && id in st.records
    ensures s.response.status == 200 ==> s.response.body == Record(st.records[id])
    ensures s.response.status == 404 <==> st.access.Granted? && id !in st.records
    ensures s.response.status == 404 ==> s.response.body == Error(EmployeeNotFoundMessage)
    ensures st.access.Denied? ==> s.response == Response(500, Error(st.access.reason))
  {
    if st.access.Denied? then Step(Response(500, Error(st.access.reason)), st)
    else if id in st.records then Step(Response(200, Record(st.records[id])), st)
    else Step(Response(404, Error(EmployeeNotFoundMessage)), st)
  }

  /** Photo POST: store the bytes under the employee's key, then record the photo URL. */
  function UploadPhoto(id: nat, files: map<string, FilePart>, st: State): (s: Step)
    ensures PhotoPart !in files ==> s == Step(Response(400, Error(NoFilePartMessage)), st)
    ensures PhotoPart in files && files[PhotoPart].filename == "" ==>
      s == Step(Response(400, Error(NoSelectedFileMessage)), st)
    ensures s.response.status == 201 <==>
      PhotoPart in files && files[PhotoPart].filename != "" && st.access.Granted?
    ensures s.response.status == 201 ==> s.state == st.(
      objects := st.objects[PhotoKey(id) := files[PhotoPart].content],
      records := SetPhotoUrl(st.records, id, PhotoUrl(id)))
    ensures s.response.status == 201 ==> s.response.body == Message(PhotoUploadedMessage)
    ensures PhotoPart in files && files[PhotoPart].filename != "" && st.access.Denied? ==>
      s.response == Response(500, Error(st.access.reason))
    ensures s.response.status != 201 ==> s.state == st
  {
    if PhotoPart !in files then Step(Response(400, Error(NoFilePartMessage)), st)
    else
      var file := files[PhotoPart];
      if file.filename == "" then Step(Response(400, Error(NoSelectedFileMessage)), st)
      else if st.access.Denied? then Step(Response(500, Error(st.access.reason)), st)
      else
        var objects := st.objects[PhotoKey(id) := file.content];
        var records := SetPhotoUrl(st.records, id, PhotoUrl(id));
        Step(Response(201, Message(PhotoUploadedMessage)), st.(objects := objects, records := records))
  }

  /** Photo GET: the object's bytes, or 404 when the key does not exist. */
  function GetPhoto(id: nat, st: State): (s: Step)
    ensures s.state == st
    ensures s.response.status == 200 <==> st.access.Granted? && PhotoKey(id) in st.objects
    ensures s.response.status == 200 ==> s.response.body == Image(st.objects[PhotoKey(id)])
    ensures s.response.status == 404 <==> st.access.Granted? && PhotoKey(id) !in st.objects
    ensures s.response.status == 404 ==> s.response.body == Error(PhotoNotFoundMessage)
    ensures st.access.Denied? ==> s.response == Response(500, Error(st.access.reason))
  {
    if st.access.Denied? then Step(Response(500, Error(st.access.reason)), st)
    else if PhotoKey(id) in st.objects then Step(Response(200, Image(st.objects[PhotoKey(id)])), st)
    else Step(Response(404, Error(PhotoNotFoundMessage)), st)
  }

  /** A request through the gate and, if it passes, the route's handler. */
  function Handle(rule: IdRule, req: Request, st: State): (s: Step)
    ensures Authorize(req.authorization, st).Reject? ==>
      s == Step(Response(401, Message(Authorize(req.authorization, st).message)), st)
    ensures s.response.status == 401 <==> Authorize(req.authorization, st).Reject?
    ensures s.state != st ==> s.response.status == 201 && req.verb == Post
  {
    match Authorize(req.authorization, st)
    case Reject(message) => Step(Response(401, Message(message)), st)
    case Pass =>
      match (req.endpoint, req.verb)
      case (ProfileEndpoint, Post) => CreateProfile(rule, req.employeeId, req.json, st)
      case (ProfileEndpoint, Get) => GetProfile(req.employeeId, st)
      case (PhotoEndpoint, Post) => UploadPhoto(req.employeeId, req.files, st)
      case (PhotoEndpoint, Get) => GetPhoto(req.employeeId, st)
  }

}
