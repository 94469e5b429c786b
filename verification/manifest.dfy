/**
 The records the manifest decodes into. They only carry data here: decoding
 itself is done by the JSON library and is not part of this model.
 */
module Manifest {

  datatype Option<+T> = None | Some(value: T)

  /** One sample entry. `kind` is the optional `type` field of the JSON. */
  datatype Malware = Malware(
    name: string,
    kind: Option<string>,
    virusTotal: string,
    moreInfo: string,
    download: string)

  /** The whole manifest: its `malware` list in document order. */
  datatype Samples = Samples(malware: seq<Malware>)
}
