/** The claims carried by a test grant (internal/grant/grant.go). */
module Claims {

  datatype Claims = Claims(
    version: int,
    keyId: string,
    nodeId: string,
    sessionId: string,
    testId: string,
    clientIp: string,
    scopes: seq<string>,
    maxDownload: int,
    maxUpload: int,
    maxStreams: int,
    notBefore: int,
    expires: int,
    nonce: string
  )
}
