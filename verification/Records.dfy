// The records of the library: media objects, the resources they refer to, and
// the container metadata that survives a rewrite of a container.
module Records {
  import opened Keys

  datatype UpnpClass = ContainerClass | MovieClass

  function ClassText(upnpClass: UpnpClass): string {
    match upnpClass
    case ContainerClass => "object.container"
    case MovieClass => "object.item.videoItem.movie"
  }

  datatype MimeType = Matroska | Mp4 | MsVideo | Mpeg | Jpeg | Srt

  function MimeText(mimeType: MimeType): string {
    match mimeType
    case Matroska => "video/x-matroska"
    case Mp4 => "video/mp4"
    case MsVideo => "video/x-msvideo"
    case Mpeg => "video/mpeg"
    case Jpeg => "image/jpeg"
    case Srt => "text/srt"
  }

  // How a client fetches a resource: over HTTP, with this MIME type.
  datatype ProtocolInfo = HttpGet(mimeType: MimeType)

  function ProtocolText(info: ProtocolInfo): string {
    "http-get:*:" + MimeText(info.mimeType) + ":*"
  }

  datatype ArtworkType = Poster | Thumbnail

  datatype Artwork = Artwork(ref: LibraryKey, artType: ArtworkType)

  datatype ResourceRef = ResourceRef(ref: LibraryKey, protocolInfo: ProtocolInfo)

  datatype ObjectData =
    | NoData
    | MediaContainer(objects: seq<LibraryKey>)
    | MediaItem(resources: seq<ResourceRef>)

  datatype MediaObject = MediaObject(
    id: int,
    parentId: int,
    dcTitle: string,
    upnpClass: UpnpClass,
    artwork: seq<Artwork>,
    dcDate: int,
    data: ObjectData)

  datatype Resource = Resource(location: string, mimeType: MimeType)

  datatype Record = ObjectRecord(media: MediaObject) | ResourceRecord(resource: Resource)

  datatype ContainerMeta = ContainerMeta(
    id: int,
    parentId: int,
    dcTitle: string,
    upnpClass: UpnpClass,
    artwork: seq<Artwork>)

  // Builds a container object. The date is not part of the metadata.
  function SerializeContainer(contents: seq<LibraryKey>, meta: ContainerMeta): MediaObject {
    MediaObject(meta.id, meta.parentId, meta.dcTitle, meta.upnpClass, meta.artwork, 0, MediaContainer(contents))
  }

  function MetaOf(media: MediaObject): ContainerMeta {
    ContainerMeta(media.id, media.parentId, media.dcTitle, media.upnpClass, media.artwork)
  }

  function ChildKeys(media: MediaObject): seq<LibraryKey> {
    if media.data.MediaContainer? then media.data.objects else []
  }

  // Every resource an object refers to: its artwork, then its own resources.
  function Refs(media: MediaObject): (keys: seq<LibraryKey>)
    ensures |keys| == |media.artwork| + if media.data.MediaItem? then |media.data.resources| else 0
  {
    seq(|media.artwork|, i requires 0 <= i < |media.artwork| => media.artwork[i].ref) +
    if media.data.MediaItem? then
      seq(|media.data.resources|, i requires 0 <= i < |media.data.resources| => media.data.resources[i].ref)
    else []
  }

  // Reading a container and writing it back keeps everything but a date.
  lemma SerializeKeepsContainer(media: MediaObject)
    requires media.data.MediaContainer?
    ensures SerializeContainer(ChildKeys(media), MetaOf(media)) == media.(dcDate := 0)
  {
  }
}
