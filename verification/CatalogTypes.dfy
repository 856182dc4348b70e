/** internal/catalog/types.go of the versioned-schema PoC; a node's `kind` is
    its Type field. The catalog-source PoC has the same items, with `serviceId`
    named ID. */
module CatalogTypes {
  import opened Json

  datatype ResourceGraphNode = ResourceGraphNode(name: string, kind: string, dependsOn: seq<string>)

  datatype Item = Item(serviceId: string, name: string, provider: string, category: string, description: string)

  datatype EntrySchema = EntrySchema(
    serviceId: string,
    resourceGraph: seq<ResourceGraphNode>,
    versions: map<string, Object>,
    storageVersion: string,
    group: string,
    kind: string,
    resource: string)
}
