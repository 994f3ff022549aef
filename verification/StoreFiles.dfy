/** What the two durable files of the host hold once their text is parsed: the device store and the identity. */
module StoreFiles {

  import opened Wrappers

  datatype SerializedDeviceRecord = SerializedDeviceRecord(
    deviceId: string,
    staticPublicKeyHex: string,
    fingerprint: string,
    trustDomainId: string,
    displayName: string,
    grantedCapabilities: seq<string>,
    pairedAt: int,
    lastSeenAt: int,
    revokedAt: Option<int>,
    keyVersion: int)

  /** The identity key pair of one generation. */
  datatype HostKeyPair = HostKeyPair(generation: nat, secretKeyHex: string, createdAt: int)

  datatype StoreImage = DeviceFile(records: seq<SerializedDeviceRecord>) | IdentityFile(pair: HostKeyPair)
}
