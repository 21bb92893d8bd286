/** The records the loader produces and the gallery and lightbox consume. */
module Catalog {

  /** One catalogued image (`ImageData`). */
  datatype ImageData = ImageData(
    id: string,
    title: string,
    description: string,
    category: string,
    filepath: string,
    filename: string)

  /** What the loader returns for one top-level category (`GalleryConfig`). */
  datatype GalleryConfig = GalleryConfig(
    themeColor: string,
    themeIcon: string,
    filters: seq<string>,
    images: seq<ImageData>)
}
