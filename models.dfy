/**
 * The records the API exchanges and stores: the publish request a CI pipeline
 * sends, and the integration record kept per (package id, version).
 */
module Models {

  /** A point in time, in seconds. */
  type Time = int

  /** A JSON document (the manifest), kept as its serialised text. */
  type Json = string

  /**
   * The publish request body. The compose_file field is read by the handlers
   * and the store although the request type as declared lacks it; it is added here.
   */
  datatype PublishRequest = PublishRequest(
    id: string,
    name: string,
    version: string,
    description: string,
    manifestUrl: string,
    manifest: Json,
    image: string,
    images: seq<string>,
    assets: map<string, string>,
    listenPath: string,
    composeFile: string,
    repoUrl: string,
    releaseTag: string,
    publisher: string)

  /**
   * One row of the integrations table, keyed by (id, version); the API returns
   * the same fields. The trending score only ever holds an event count, so it is
   * an integer here.
   */
  datatype Integration = Integration(
    id: string,
    version: string,
    name: string,
    description: string,
    manifestUrl: string,
    manifest: Json,
    image: string,
    images: seq<string>,
    assets: map<string, string>,
    listenPath: string,
    composeFile: string,
    repoUrl: string,
    releaseTag: string,
    publisher: string,
    verified: bool,
    latest: bool,
    downloads: int,
    trendingScore: int,
    featured: bool,
    createdAt: Time,
    updatedAt: Time)
}
