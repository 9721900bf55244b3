// How LFSPM names a version of a vault snapshot.
module Identities {
  type VersionVector = map<string, int>

  datatype Descriptor = Descriptor(vaultId: string, vector: VersionVector, timestamp: int)

  datatype Identity = Identity(descriptor: Descriptor, digest: string)
}
