/** The upload-URL handler: a CORS preflight is answered at once; otherwise
    the `name` query parameter is required and the object key is `uploaded/`
    followed by it, signed for 60 seconds in the upload bucket. That prefix is
    the one the bucket's object-created notification to the file parser
    filters on (lib/import-service-stack.ts). */
module ImportProductsFile {
  import opened Records
  import opened Http

  const UploadPrefix: string := "uploaded/"
  /** The key prefix of the bucket notification that starts the parser. */
  const NotificationPrefix: string := "uploaded/"
  const UrlLifetimeSeconds: int := 60
  const MissingFileName: string := "Missing file name in query string"

  /** The fixed headers of every response of this handler. */
  const CorsHeaders: map<string, string> :=
    map["Access-Control-Allow-Origin" := "http://localhost:3000",
        "Access-Control-Allow-Headers" := "*",
        "Access-Control-Allow-Methods" := "GET,OPTIONS"]

  /** What the URL is signed for: `PutObjectCommand({ Bucket, Key })` with
      `{ expiresIn }`. `bucket` is `BUCKET_NAME`, None when unset. */
  datatype SignRequest = SignRequest(bucket: Option<string>, key: string, expiresIn: int)

  /** The object key for an uploaded file name. */
  function ObjectKey(name: string): (key: string)
    ensures |key| == |UploadPrefix| + |name|
    ensures UploadPrefix <= key
  {
    UploadPrefix + name
  }

  /** The file name an object key was made from, if it was made by `ObjectKey`. */
  function FileNameOf(key: string): (name: Option<string>)
    ensures name.Some? <==> UploadPrefix <= key
  {
    if UploadPrefix <= key then Some(key[|UploadPrefix|..]) else None
  }

  /** Stripping the prefix gives back the name. */
  lemma FileNameRoundTrip(name: string)
    ensures FileNameOf(ObjectKey(name)) == Some(name)
  {
  }

  /** Distinct names never share a key. */
  lemma ObjectKeyInjective(name1: string, name2: string)
    requires ObjectKey(name1) == ObjectKey(name2)
    ensures name1 == name2
  {
    FileNameRoundTrip(name1);
    FileNameRoundTrip(name2);
  }

  /** The handler's response and the signing request it made, if any.
      `sign` stands for `getSignedUrl`. */
  datatype Outcome = Outcome(response: Response, signed: Option<SignRequest>)

  function Handle(httpMethod: string, name: Option<string>, bucket: Option<string>,
                  sign: SignRequest -> string): (out: Outcome)
    ensures out.response.headers == CorsHeaders
    ensures httpMethod == "OPTIONS" ==> out == Outcome(Response(200, CorsHeaders, Blank), None)
    ensures httpMethod != "OPTIONS" && (name == None || name == Some("")) ==>
      out == Outcome(Response(400, CorsHeaders, Message(MissingFileName)), None)
    ensures out.signed.Some? <==> httpMethod != "OPTIONS" && name.Some? && name.value != ""
    ensures out.signed.Some? ==>
      && out.signed.value == SignRequest(bucket, ObjectKey(name.value), UrlLifetimeSeconds)
      && out.response == Response(200, CorsHeaders, Url(sign(out.signed.value)))
  {
    if httpMethod == "OPTIONS" then
      Outcome(Response(200, CorsHeaders, Blank), None)
    else if name == None || name == Some("") then
      Outcome(Response(400, CorsHeaders, Message(MissingFileName)), None)
    else
      var request := SignRequest(bucket, ObjectKey(name.value), UrlLifetimeSeconds);
      Outcome(Response(200, CorsHeaders, Url(sign(request))), Some(request))
  }

  /** Every key a URL is signed for lies under the notification prefix, so
      an upload through it reaches the file parser, and names the file that
      was asked for. */
  lemma SignedKeyReachesParser(httpMethod: string, name: Option<string>, bucket: Option<string>,
                               sign: SignRequest -> string)
    requires Handle(httpMethod, name, bucket, sign).signed.Some?
    ensures NotificationPrefix <= Handle(httpMethod, name, bucket, sign).signed.value.key
    ensures FileNameOf(Handle(httpMethod, name, bucket, sign).signed.value.key) == name
  {
  }
}
