/** The request methods and protocol versions the program tells apart. */
module Http {
  datatype Method = GET | HEAD | OPTIONS | PUT | DELETE | POST | PATCH | CONNECT | Other(name: string)

  datatype Version = HTTP_09 | HTTP_10 | HTTP_11 | HTTP_2 | HTTP_3
}
