/** The object keys shared by the auto-provisioning parts. */
module Keys {

  datatype AppKey = AppKey(organization: string, name: string, version: string)

  datatype CloudletKey = CloudletKey(organization: string, name: string)

  datatype ClusterInstKey = ClusterInstKey(clusterName: string, cloudletKey: CloudletKey, organization: string)

  datatype AppInstKey = AppInstKey(appKey: AppKey, clusterInstKey: ClusterInstKey)
}
