/** The fields of store.Channel that the modelled code reads. */
module Channels {
  datatype Channel =
    Channel(id: string, slug: string, status: string, mode: string, inputURL: string, playlistTTLSeconds: int)

  /** The channels that StartWorker starts a worker for. */
  predicate WantsWorker(channel: Channel) {
    channel.status == "active" && (channel.mode == "ingest" || channel.mode == "transmux")
  }
}
